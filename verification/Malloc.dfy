/**
user/umalloc.c: the address-ordered circular free list of the K&R allocator. Addresses count units of
one header (16 bytes). `tiles` lists all blocks, live and free, by address.
*/
module Malloc {
  datatype Header = Header(ptr: nat, size: nat)
  datatype Tile = Tile(addr: nat, size: nat, live: bool)

  // ---------------------------------------------------------------------------------------
  // Blocks by address
  // ---------------------------------------------------------------------------------------

  /** `a` lies before `b`, and if both are free there is something in between. */
  predicate Before(a: Tile, b: Tile)
  {
    a.addr + a.size <= b.addr && (!a.live && !b.live ==> a.addr + a.size < b.addr)
  }

  /** Disjoint blocks in address order, no two free ones adjacent. */
  ghost predicate Tiled(ts: seq<Tile>)
  {
    && (forall i {:trigger ts[i]} | 0 <= i < |ts| :: ts[i].size > 0)
    && forall i, j {:trigger ts[i], ts[j]} | 0 <= i < j < |ts| :: Before(ts[i], ts[j])
  }

  /** The addresses of the free blocks. */
  ghost function Frees(ts: seq<Tile>): seq<nat>
  {
    if ts == [] then [] else (if ts[0].live then [] else [ts[0].addr]) + Frees(ts[1..])
  }

  lemma FreesHead(ts: seq<Tile>)
    requires ts != []
    ensures Frees(ts) == (if ts[0].live then [] else [ts[0].addr]) + Frees(ts[1..])
  {
  }

  lemma FreesNone()
    ensures Frees([]) == []
  {
  }

  lemma {:induction false} FreesConcat(a: seq<Tile>, b: seq<Tile>)
    ensures Frees(a + b) == Frees(a) + Frees(b)
  {
    hide Frees;
    if a == [] {
      FreesNone();
      assert a + b == b && [] + Frees(b) == Frees(b);
    } else {
      FreesConcat(a[1..], b);
      FreesHead(a);
      FreesHead(a + b);
      assert (a + b)[1..] == a[1..] + b;
      Assoc(if a[0].live then [] else [a[0].addr], Frees(a[1..]), Frees(b));
    }
  }

  lemma Assoc(a: seq<nat>, b: seq<nat>, c: seq<nat>)
    ensures (a + b) + c == a + (b + c)
  {
  }

  lemma FreesOne(t: Tile)
    ensures Frees([t]) == if t.live then [] else [t.addr]
  {
    assert [t][1..] == [];
  }

  /** Cutting the blocks around block `t`. */
  lemma Split(ts: seq<Tile>, t: nat)
    requires t < |ts|
    ensures Frees(ts) == Frees(ts[..t]) + ((if ts[t].live then [] else [ts[t].addr]) + Frees(ts[t + 1..]))
  {
    hide Frees;
    var a, x, b := ts[..t], [ts[t]], ts[t + 1..];
    CutAt(ts, t);
    FreesConcat(a, x + b);
    FreesConcat(x, b);
    FreesOne(ts[t]);
  }

  lemma CutAt(ts: seq<Tile>, t: nat)
    requires t < |ts|
    ensures ts[..t] + ([ts[t]] + ts[t + 1..]) == ts
  {
  }

  lemma CutTwice(ts: seq<Tile>, lo: nat, hi: nat)
    requires lo <= hi <= |ts|
    ensures ts[..lo] + ts[lo..hi] + ts[hi..] == ts
  {
  }

  /** The block of the `k`-th free list entry. */
  lemma {:induction false} FreesFrom(ts: seq<Tile>, k: nat) returns (i: nat)
    requires k < |Frees(ts)|
    ensures i < |ts| && !ts[i].live && ts[i].addr == Frees(ts)[k] && Frees(ts[..i]) == Frees(ts)[..k]
            && Frees(ts[i + 1..]) == Frees(ts)[k + 1..]
  {
    hide Frees;
    FreesNone();
    FreesHead(ts);
    if !ts[0].live && k == 0 {
      i := 0;
    } else {
      var k' := if ts[0].live then k else k - 1;
      var j := FreesFrom(ts[1..], k');
      i := j + 1;
      assert ts[i] == ts[1..][j];
    }
    Split(ts, i);
    FrontLength(ts, i, k);
  }

  lemma {:induction false} FrontLength(ts: seq<Tile>, i: nat, k: nat)
    requires i < |ts| && !ts[i].live && k < |Frees(ts)|
             && Frees(ts) == Frees(ts[..i]) + ([ts[i].addr] + Frees(ts[i + 1..])) && |Frees(ts[..i])| == k
    ensures Frees(ts)[k] == ts[i].addr && Frees(ts[..i]) == Frees(ts)[..k] && Frees(ts[i + 1..]) == Frees(ts)[k + 1..]
  {
    hide Frees;
  }

  /** The free list starts at the static header `base`, which has size 0 and lies below everything. */
  ghost function List(base: nat, ts: seq<Tile>): seq<nat>
  {
    [base] + Frees(ts)
  }

  ghost predicate Ascending(l: seq<nat>)
  {
    forall i, j {:trigger l[i], l[j]} | 0 <= i < j < |l| :: l[i] < l[j]
  }

  lemma {:induction false} FreesAscend(lo: nat, ts: seq<Tile>)
    requires Tiled(ts) && forall i {:trigger ts[i]} | 0 <= i < |ts| :: lo < ts[i].addr
    ensures Ascending([lo] + Frees(ts))
    decreases |ts|
  {
    if ts != [] {
      if ts[0].live {
        FreesAscend(lo, ts[1..]);
        assert Frees(ts) == Frees(ts[1..]);
      } else {
        FreesAscend(ts[0].addr, ts[1..]);
        var l, l' := [lo] + Frees(ts), [ts[0].addr] + Frees(ts[1..]);
        assert l == [lo] + l';
        forall i, j | 0 <= i < j < |l|
          ensures l[i] < l[j]
        {
          assert l[j] == l'[j - 1];
          if i > 0 {
            assert l[i] == l'[i - 1];
          } else {
            assert lo < l'[0] && (j > 1 ==> l'[0] < l'[j - 1]);
          }
        }
      }
    }
  }

  // ---------------------------------------------------------------------------------------
  // The ring in memory
  // ---------------------------------------------------------------------------------------

  function NextOf(l: seq<nat>, i: nat): nat
    requires i < |l|
  {
    if i + 1 < |l| then l[i + 1] else l[0]
  }

  /** p->s.ptr and p->s.size */
  function Ptr(hdr: map<nat, Header>, p: nat): nat
  {
    if p in hdr then hdr[p].ptr else 0
  }

  function Size(hdr: map<nat, Header>, p: nat): nat
  {
    if p in hdr then hdr[p].size else 0
  }

  ghost predicate Ring(hdr: map<nat, Header>, l: seq<nat>)
  {
    |l| > 0 && forall i: nat {:trigger NextOf(l, i)} {:trigger Ptr(hdr, l[i])} | i < |l| ::
                 l[i] in hdr && Ptr(hdr, l[i]) == NextOf(l, i)
  }

  /** Headers hold the sizes of all blocks. */
  ghost predicate Sizes(hdr: map<nat, Header>, ts: seq<Tile>)
  {
    forall i {:trigger ts[i]} | 0 <= i < |ts| :: ts[i].addr in hdr && hdr[ts[i].addr].size == ts[i].size
  }

  /** New links around the place where ring `a + b` is opened: `m` goes in, the first `k` of `b` go out. */
  lemma RingSplice(hdr: map<nat, Header>, hdr': map<nat, Header>, a: seq<nat>, b: seq<nat>, m: seq<nat>, k: nat)
    requires |a| > 0 && |m| <= 1 && k <= |b| && Ring(hdr, a + b)
    requires forall i | 0 <= i < |a| - 1 :: a[i] in hdr' && Ptr(hdr', a[i]) == Ptr(hdr, a[i])
    requires forall j | k <= j < |b| :: b[j] in hdr' && Ptr(hdr', b[j]) == Ptr(hdr, b[j])
    requires var first := if k < |b| then b[k] else a[0];
             && a[|a| - 1] in hdr' && Ptr(hdr', a[|a| - 1]) == (if m == [] then first else m[0])
             && (m != [] ==> m[0] in hdr' && Ptr(hdr', m[0]) == first)
    ensures Ring(hdr', a + m + b[k..])
  {
    var l, l' := a + b, a + m + b[k..];
    forall i: nat | i < |l'|
      ensures l'[i] in hdr' && Ptr(hdr', l'[i]) == NextOf(l', i)
    {
      if i < |a| {
        assert l[i] == a[i] && Ptr(hdr, l[i]) == NextOf(l, i);
      } else if i >= |a| + |m| {
        var j := i - |a| - |m| + k;
        assert l'[i] == b[j] && l[|a| + j] == b[j] && Ptr(hdr, l[|a| + j]) == NextOf(l, |a| + j);
      }
    }
  }

  /** How far the search has to go from position `k` to position `m` of a ring of `n`. */
  function Distance(k: nat, m: nat, n: nat): nat
    requires k < n && m < n
  {
    if k <= m then m - k else m + n - k
  }

  /** free's search loop: the last list element before `bp`, wherever it starts. */
  method FindPlace(hdr: map<nat, Header>, freep: nat, bp: nat, ghost l: seq<nat>, ghost start: nat, ghost m: nat)
      returns (p: nat)
    requires Ring(hdr, l) && Ascending(l) && start < |l| && freep == l[start]
    requires m < |l| && l[m] < bp && (m + 1 < |l| ==> bp < l[m + 1])
    ensures p == l[m]
  {
    ghost var k: nat := start;
    p := freep;
    assert Ptr(hdr, l[k]) == NextOf(l, k) && l[0] < bp;
    while !(bp > p && bp < Ptr(hdr, p))
      invariant k < |l| && p == l[k] && Ptr(hdr, l[k]) == NextOf(l, k)
      decreases Distance(k, m, |l|)
    {
      if p >= Ptr(hdr, p) && (bp > p || bp < Ptr(hdr, p)) {
        break;
      }
      p := Ptr(hdr, p);
      k := if k + 1 < |l| then k + 1 else 0;
      assert Ptr(hdr, l[k]) == NextOf(l, k);
    }
  }

  // ---------------------------------------------------------------------------------------
  // free
  // ---------------------------------------------------------------------------------------

  function End(t: Tile): nat
  {
    t.addr + t.size
  }

  /** Whether freeing block `t` joins it with the block before, and the one after. */
  predicate JoinsPrev(ts: seq<Tile>, t: nat)
    requires t < |ts|
  {
    t > 0 && !ts[t - 1].live && End(ts[t - 1]) == ts[t].addr
  }

  predicate JoinsNext(ts: seq<Tile>, t: nat)
    requires t < |ts|
  {
    t + 1 < |ts| && !ts[t + 1].live && End(ts[t]) == ts[t + 1].addr
  }

  function First(ts: seq<Tile>, t: nat): (lo: nat)
    requires t < |ts|
    ensures lo <= t
  {
    if JoinsPrev(ts, t) then t - 1 else t
  }

  function Last(ts: seq<Tile>, t: nat): (hi: nat)
    requires t < |ts|
    ensures t < hi <= |ts|
  {
    if JoinsNext(ts, t) then t + 2 else t + 1
  }

  /** The blocks after block `t` is freed. */
  function Joined(ts: seq<Tile>, t: nat): seq<Tile>
    requires t < |ts| && ts[First(ts, t)].addr <= End(ts[Last(ts, t) - 1])
  {
    var lo, hi := First(ts, t), Last(ts, t);
    ts[..lo] + [Tile(ts[lo].addr, End(ts[hi - 1]) - ts[lo].addr, false)] + ts[hi..]
  }

  lemma JoinFits(ts: seq<Tile>, t: nat)
    requires Tiled(ts) && t < |ts|
    ensures ts[First(ts, t)].addr < End(ts[Last(ts, t) - 1])
    ensures End(ts[Last(ts, t) - 1]) - ts[First(ts, t)].addr
            == (if JoinsPrev(ts, t) then ts[t - 1].size else 0) + ts[t].size
               + (if JoinsNext(ts, t) then ts[t + 1].size else 0)
  {
  }

  lemma JoinedTiled(ts: seq<Tile>, t: nat)
    requires Tiled(ts) && t < |ts| && ts[t].live
    ensures ts[First(ts, t)].addr <= End(ts[Last(ts, t) - 1]) && Tiled(Joined(ts, t))
  {
    JoinFits(ts, t);
    var lo, hi := First(ts, t), Last(ts, t);
    var ts' := Joined(ts, t);
    forall i, j | 0 <= i < j < |ts'|
      ensures Before(ts'[i], ts'[j])
    {
      JoinedBefore(ts, t, i, j);
    }
  }

  lemma JoinedBefore(ts: seq<Tile>, t: nat, i: nat, j: nat)
    requires Tiled(ts) && t < |ts| && ts[t].live && ts[First(ts, t)].addr <= End(ts[Last(ts, t) - 1])
    requires i < j < |Joined(ts, t)|
    ensures Before(Joined(ts, t)[i], Joined(ts, t)[j])
  {
    var lo, hi, ts' := First(ts, t), Last(ts, t), Joined(ts, t);
    var i', j' := if i < lo then i else i - lo - 1 + hi, if j < lo then j else j - lo - 1 + hi;
    assert i < lo ==> ts'[i] == ts[i];
    assert j > lo ==> ts'[j] == ts[j'];
    if i == lo {
      AfterJoined(ts, t, j');
    } else if j == lo {
      BeforeJoined(ts, t, i);
    } else {
      assert i > lo ==> ts'[i] == ts[i'];
      assert j < lo ==> ts'[j] == ts[j];
      assert Before(ts[i'], ts[j']);
    }
  }

  lemma AfterJoined(ts: seq<Tile>, t: nat, j: nat)
    requires Tiled(ts) && t < |ts| && ts[t].live && Last(ts, t) <= j < |ts|
    ensures End(ts[Last(ts, t) - 1]) <= ts[j].addr && (!ts[j].live ==> End(ts[Last(ts, t) - 1]) < ts[j].addr)
  {
    var hi := Last(ts, t);
    assert Before(ts[hi - 1], ts[j]) && Before(ts[t], ts[j]);
    assert hi < j ==> Before(ts[hi - 1], ts[hi]) && Before(ts[hi], ts[j]);
  }

  lemma BeforeJoined(ts: seq<Tile>, t: nat, i: nat)
    requires Tiled(ts) && t < |ts| && ts[t].live && i < First(ts, t)
    ensures End(ts[i]) <= ts[First(ts, t)].addr && (!ts[i].live ==> End(ts[i]) < ts[First(ts, t)].addr)
  {
    var lo := First(ts, t);
    assert Before(ts[i], ts[lo]) && Before(ts[i], ts[t]);
    assert i < lo - 1 ==> Before(ts[i], ts[lo - 1]) && Before(ts[lo - 1], ts[lo]);
  }

  /** The free list before and after block `t`. */
  ghost function Front(base: nat, ts: seq<Tile>, t: nat): seq<nat>
    requires t <= |ts|
  {
    [base] + Frees(ts[..t])
  }

  ghost function Rear(ts: seq<Tile>, t: nat): seq<nat>
    requires t < |ts|
  {
    Frees(ts[t + 1..])
  }

  ghost predicate Above(base: nat, ts: seq<Tile>)
  {
    forall i {:trigger ts[i]} | 0 <= i < |ts| :: base < ts[i].addr
  }

  lemma {:induction false} FreesBelow(ts: seq<Tile>, x: nat)
    requires forall i {:trigger ts[i]} | 0 <= i < |ts| :: ts[i].addr < x
    ensures forall i {:trigger Frees(ts)[i]} | 0 <= i < |Frees(ts)| :: Frees(ts)[i] < x
  {
    forall k | 0 <= k < |Frees(ts)|
      ensures Frees(ts)[k] < x
    {
      var i := FreesFrom(ts, k);
    }
  }

  lemma {:induction false} FreesAbove(ts: seq<Tile>, x: nat)
    requires forall i {:trigger ts[i]} | 0 <= i < |ts| :: x < ts[i].addr
    ensures forall i {:trigger Frees(ts)[i]} | 0 <= i < |Frees(ts)| :: x < Frees(ts)[i]
  {
    forall k | 0 <= k < |Frees(ts)|
      ensures x < Frees(ts)[k]
    {
      var i := FreesFrom(ts, k);
    }
  }

  /** A live block's place in the free list. */
  lemma Place(base: nat, ts: seq<Tile>, t: nat)
    requires Tiled(ts) && Above(base, ts) && t < |ts| && ts[t].live
    ensures List(base, ts) == Front(base, ts, t) + Rear(ts, t) && Ascending(List(base, ts))
    ensures forall i {:trigger Front(base, ts, t)[i]} | 0 <= i < |Front(base, ts, t)| ::
              Front(base, ts, t)[i] < ts[t].addr
    ensures forall i {:trigger Rear(ts, t)[i]} | 0 <= i < |Rear(ts, t)| :: ts[t].addr < Rear(ts, t)[i]
  {
    hide Frees;
    Split(ts, t);
    FreesAscend(base, ts);
    assert forall i {:trigger ts[..t][i]} | 0 <= i < t :: Before(ts[i], ts[t]);
    FreesBelow(ts[..t], ts[t].addr);
    assert forall i {:trigger ts[t + 1..][i]} | 0 <= i < |ts| - t - 1 :: Before(ts[t], ts[t + 1 + i]);
    FreesAbove(ts[t + 1..], ts[t].addr);
  }

  /** The list after block `t` is freed: the block is new in it unless it was joined to the one before. */
  lemma JoinedList(base: nat, ts: seq<Tile>, t: nat)
    requires Tiled(ts) && t < |ts| && ts[t].live
    ensures ts[First(ts, t)].addr <= End(ts[Last(ts, t) - 1])
    ensures JoinsNext(ts, t) ==> Rear(ts, t) != [] && Rear(ts, t)[0] == ts[t + 1].addr
    ensures JoinsPrev(ts, t) ==> Front(base, ts, t)[|Front(base, ts, t)| - 1] == ts[t - 1].addr
    ensures (if JoinsNext(ts, t) then 1 else 0) <= |Rear(ts, t)|
    ensures List(base, Joined(ts, t))
            == Front(base, ts, t) + (if JoinsPrev(ts, t) then [] else [ts[t].addr])
               + Rear(ts, t)[if JoinsNext(ts, t) then 1 else 0..]
  {
    hide Frees;
    JoinFits(ts, t);
    if JoinsPrev(ts, t) {
      FrontJoined(ts, t);
    }
    if JoinsNext(ts, t) {
      RearJoined(ts, t);
    }
    var lo, hi := First(ts, t), Last(ts, t);
    var mid := Tile(ts[lo].addr, End(ts[hi - 1]) - ts[lo].addr, false);
    FreesConcat(ts[..lo] + [mid], ts[hi..]);
    FreesConcat(ts[..lo], [mid]);
    FreesOne(mid);
  }

  lemma FrontJoined(ts: seq<Tile>, t: nat)
    requires t < |ts| && JoinsPrev(ts, t)
    ensures Frees(ts[..t]) == Frees(ts[..t - 1]) + [ts[t - 1].addr]
  {
    assert ts[..t] == ts[..t - 1] + [ts[t - 1]];
    FreesConcat(ts[..t - 1], [ts[t - 1]]);
    FreesOne(ts[t - 1]);
  }

  lemma RearJoined(ts: seq<Tile>, t: nat)
    requires t < |ts| && JoinsNext(ts, t)
    ensures Frees(ts[t + 1..]) == [ts[t + 1].addr] + Frees(ts[t + 2..])
  {
    assert ts[t + 1..] == [ts[t + 1]] + ts[t + 2..];
    FreesConcat([ts[t + 1]], ts[t + 2..]);
    FreesOne(ts[t + 1]);
  }

  /** The block ends where the next list element starts exactly if the next block is free and adjacent. */
  lemma NextTest(ts: seq<Tile>, t: nat)
    requires Tiled(ts) && t < |ts| && ts[t].live
    ensures JoinsNext(ts, t) <==> Rear(ts, t) != [] && End(ts[t]) == Rear(ts, t)[0]
  {
    JoinedList(0, ts, t);
    if Rear(ts, t) != [] && End(ts[t]) == Rear(ts, t)[0] {
      var i := FreesFrom(ts[t + 1..], 0);
      assert i > 0 ==> Before(ts[t], ts[t + 1]) && Before(ts[t + 1], ts[t + 1 + i]);
    }
  }

  /** The list element before ends where the block starts exactly if the block before is free and adjacent. */
  lemma PrevTest(base: nat, hdr: map<nat, Header>, ts: seq<Tile>, t: nat)
    requires Tiled(ts) && Above(base, ts) && t < |ts| && ts[t].live && Sizes(hdr, ts) && Size(hdr, base) == 0
    ensures var p := Front(base, ts, t)[|Front(base, ts, t)| - 1]; JoinsPrev(ts, t) <==> p + Size(hdr, p) == ts[t].addr
  {
    JoinedList(base, ts, t);
    var f := Frees(ts[..t]);
    if f != [] {
      var i := FreesFrom(ts[..t], |f| - 1);
      assert i < t - 1 ==> Before(ts[i], ts[t - 1]) && Before(ts[t - 1], ts[t]);
      AllLive(ts[..t][i + 1..]);
      assert i < t - 1 ==> ts[..t][i + 1..][t - 1 - (i + 1)] == ts[t - 1];
    }
  }

  lemma {:induction false} AllLive(ts: seq<Tile>)
    requires Frees(ts) == []
    ensures forall i {:trigger ts[i]} | 0 <= i < |ts| :: ts[i].live
  {
    if ts != [] {
      AllLive(ts[1..]);
      assert forall i {:trigger ts[i]} | 1 <= i < |ts| :: ts[i] == ts[1..][i - 1];
    }
  }

  /** The headers, the free list and the blocks agree. */
  ghost predicate HeapOk(base: nat, hdr: map<nat, Header>, freep: nat, ts: seq<Tile>)
  {
    && Tiled(ts) && Above(base, ts) && Ring(hdr, List(base, ts)) && Sizes(hdr, ts)
    && base in hdr && Size(hdr, base) == 0 && freep in List(base, ts)
  }

  /** free after the search: join with the block after, then with the one before. */
  function Coalesce(hdr: map<nat, Header>, p: nat, bp: nat): map<nat, Header>
  {
    var q := Ptr(hdr, p);
    var h := if bp + Size(hdr, bp) == q then hdr[bp := Header(Ptr(hdr, q), Size(hdr, bp) + Size(hdr, q))]
             else hdr[bp := Header(q, Size(hdr, bp))];
    if p + Size(h, p) == bp then h[p := Header(Ptr(h, bp), Size(h, p) + Size(h, bp))]
    else h[p := Header(bp, Size(h, p))]
  }

  /** What the two tests of free see. */
  lemma Tests(base: nat, hdr: map<nat, Header>, freep: nat, ts: seq<Tile>, t: nat)
    requires HeapOk(base, hdr, freep, ts) && t < |ts| && ts[t].live
    ensures var a, b := Front(base, ts, t), Rear(ts, t); var p := a[|a| - 1];
            && p < ts[t].addr && Ptr(hdr, p) == (if b == [] then base else b[0]) && Size(hdr, ts[t].addr) == ts[t].size
            && (ts[t].addr + ts[t].size == Ptr(hdr, p) <==> JoinsNext(ts, t))
                && (p + Size(hdr, p) == ts[t].addr <==> JoinsPrev(ts, t))
            && (b != [] ==> Ptr(hdr, b[0]) == if |b| > 1 then b[1] else base)
  {
    Place(base, ts, t);
    NextTest(ts, t);
    PrevTest(base, hdr, ts, t);
    var a, b, l := Front(base, ts, t), Rear(ts, t), List(base, ts);
    assert l[|a| - 1] == a[|a| - 1] && Ptr(hdr, l[|a| - 1]) == NextOf(l, |a| - 1);
    assert b != [] ==> l[|a|] == b[0] && Ptr(hdr, l[|a|]) == NextOf(l, |a|);
  }

  /** Pointers after free: only those of `p` and `bp` are new. */
  lemma CoalescedPtr(hdr: map<nat, Header>, p: nat, bp: nat, x: nat)
    requires p != bp
    ensures x in hdr ==> x in Coalesce(hdr, p, bp)
    ensures p in Coalesce(hdr, p, bp) && bp in Coalesce(hdr, p, bp)
    ensures var first := if bp + Size(hdr, bp) == Ptr(hdr, p) then Ptr(hdr, Ptr(hdr, p)) else Ptr(hdr, p);
            Ptr(Coalesce(hdr, p, bp), x)
            == if x == p then (if p + Size(hdr, p) == bp then first else bp) else if x == bp then first else Ptr(hdr, x)
  {
  }

  lemma CoalesceRing(base: nat, hdr: map<nat, Header>, freep: nat, ts: seq<Tile>, t: nat)
    requires HeapOk(base, hdr, freep, ts) && t < |ts| && ts[t].live
    ensures ts[First(ts, t)].addr <= End(ts[Last(ts, t) - 1])
    ensures var p := Front(base, ts, t)[|Front(base, ts, t)| - 1];
            Ring(Coalesce(hdr, p, ts[t].addr), List(base, Joined(ts, t)))
  {
    hide Frees, Tiled, JoinsNext, JoinsPrev, Coalesce;
    Place(base, ts, t);
    Tests(base, hdr, freep, ts, t);
    JoinedList(base, ts, t);
    var a, b := Front(base, ts, t), Rear(ts, t);
    var p, bp := a[|a| - 1], ts[t].addr;
    var hdr' := Coalesce(hdr, p, bp);
    CoalescedPtr(hdr, p, bp, p);
    CoalescedPtr(hdr, p, bp, bp);
    forall i: nat | i < |a| - 1
      ensures a[i] in hdr' && Ptr(hdr', a[i]) == Ptr(hdr, a[i])
    {
      assert (a + b)[i] == a[i] && (a + b)[|a| - 1] == p && Ptr(hdr, (a + b)[i]) == NextOf(a + b, i);
      CoalescedPtr(hdr, p, bp, a[i]);
    }
    forall j: nat | j < |b|
      ensures b[j] in hdr' && Ptr(hdr', b[j]) == Ptr(hdr, b[j])
    {
      assert (a + b)[|a| + j] == b[j] && Ptr(hdr, (a + b)[|a| + j]) == NextOf(a + b, |a| + j);
      CoalescedPtr(hdr, p, bp, b[j]);
    }
    RingSplice(hdr, hdr', a, b, if JoinsPrev(ts, t) then [] else [bp], if JoinsNext(ts, t) then 1 else 0);
  }

  lemma CoalescedSize(hdr: map<nat, Header>, p: nat, bp: nat, x: nat)
    requires p != bp
    ensures x in hdr ==> x in Coalesce(hdr, p, bp)
    ensures var grown := Size(hdr, bp) + (if bp + Size(hdr, bp) == Ptr(hdr, p) then Size(hdr, Ptr(hdr, p)) else 0);
            Size(Coalesce(hdr, p, bp), x)
            == if x == p && p + Size(hdr, p) == bp then Size(hdr, p) + grown else if x == bp then grown
                else Size(hdr, x)
  {
  }

  lemma CoalesceSizes(base: nat, hdr: map<nat, Header>, freep: nat, ts: seq<Tile>, t: nat)
    requires HeapOk(base, hdr, freep, ts) && t < |ts| && ts[t].live
    ensures ts[First(ts, t)].addr <= End(ts[Last(ts, t) - 1])
    ensures var hdr' := Coalesce(hdr, Front(base, ts, t)[|Front(base, ts, t)| - 1], ts[t].addr);
            Sizes(hdr', Joined(ts, t)) && base in hdr' && Size(hdr', base) == 0 && Above(base, Joined(ts, t))
  {
    hide Frees, Coalesce, Ring;
    Tests(base, hdr, freep, ts, t);
    JoinFits(ts, t);
    JoinedList(base, ts, t);
    var lo, hi, ts' := First(ts, t), Last(ts, t), Joined(ts, t);
    var p := Front(base, ts, t)[|Front(base, ts, t)| - 1];
    var hdr' := Coalesce(hdr, p, ts[t].addr);
    CoalescedSize(hdr, p, ts[t].addr, base);
    forall i | 0 <= i < |ts'|
      ensures ts'[i].addr in hdr' && hdr'[ts'[i].addr].size == ts'[i].size && base < ts'[i].addr
    {
      CoalescedSize(hdr, p, ts[t].addr, ts'[i].addr);
      if i != lo {
        var i' := if i < lo then i else i - lo - 1 + hi;
        OtherTile(ts, t, i');
        assert ts'[i] == ts[i'];
      } else {
        assert Size(hdr', ts'[lo].addr) == ts'[lo].size;
      }
    }
  }

  /** A block that is neither block `t` nor joined to it in front has another address than both. */
  lemma OtherTile(ts: seq<Tile>, t: nat, i: nat)
    requires Tiled(ts) && t < |ts| && i < |ts| && i != t && (i == t - 1 ==> !JoinsPrev(ts, t))
    ensures ts[i].addr != ts[t].addr && (JoinsPrev(ts, t) ==> ts[i].addr != ts[t - 1].addr)
  {
    assert if i < t then Before(ts[i], ts[t]) else Before(ts[t], ts[i]);
    assert JoinsPrev(ts, t) ==> if i < t - 1 then Before(ts[i], ts[t - 1]) else Before(ts[t - 1], ts[i]);
  }

  /** free keeps the heap in order. */
  lemma FreeKeeps(base: nat, hdr: map<nat, Header>, freep: nat, ts: seq<Tile>, t: nat)
    requires HeapOk(base, hdr, freep, ts) && t < |ts| && ts[t].live
    ensures ts[First(ts, t)].addr <= End(ts[Last(ts, t) - 1])
    ensures var p := Front(base, ts, t)[|Front(base, ts, t)| - 1];
            HeapOk(base, Coalesce(hdr, p, ts[t].addr), p, Joined(ts, t))
  {
    hide Frees, Ring, Sizes, Coalesce;
    JoinedTiled(ts, t);
    CoalesceRing(base, hdr, freep, ts, t);
    CoalesceSizes(base, hdr, freep, ts, t);
    JoinedList(base, ts, t);
    var a := Front(base, ts, t);
    assert List(base, Joined(ts, t))[|a| - 1] == a[|a| - 1];
  }
}
