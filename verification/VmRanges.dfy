/** Mapping and unmapping page by page: what a whole range amounts to. */
module VmRanges {
  import opened Sv39
  import opened PageTree
  import opened PageSteps
  import opened VmFrame

  /** A range of pages a tree owns, or one it is lent. */
  predicate RangeOk(v: nat, n: nat)
  {
    v + n <= PAGES - 2 || (v >= PAGES - 2 && v + n <= PAGES)
  }

  /** Pages [v, v+n) of tree `r` translate to pages p, p+1, ... with flags `f`, everything else as before. */
  ghost predicate MappedRange(s: St, s': St, r: nat, v: nat, n: nat, p: nat, f: nat)
  {
    && Inv(s') && GrownBut(s, s', r, p, if v < PAGES - 2 then p + n else p)
    && (forall r': nat, w: nat {:trigger Pte(s', r', w)} ::
          Pte(s', r', w) == if r' == r && v <= w < v + n then (p + (w - v)) * 1024 + f else Pte(s, r', w))
    && (v < PAGES - 2 ==> p + n <= |s.mem| && forall x: nat {:trigger s'.owner[x]} {:trigger Taken(s, s', r, v, p,
                                                                      x)} | p <= x < p + n :: Taken(s, s', r, v, p, x))
  }

  /** Page `x` now belongs to tree `r` at virtual page v + (x - p), with the contents it had. */
  predicate Taken(s: St, s': St, r: nat, v: nat, p: nat, x: nat)
    requires p <= x < |s.mem| && x < |s'.mem| && x < |s'.owner|
  {
    s'.owner[x] == User(r, TabOf(v + (x - p)), (v + (x - p)) % 512) && s'.mem[x] == s.mem[x]
  }

  lemma MappedNone(s: St, r: nat, v: nat, p: nat, f: nat)
    requires Inv(s) && p <= |s.mem|
    ensures MappedRange(s, s, r, v, 0, p, f)
  {
    hide Pte, Valid, Leaf, UserBit, Lent, Ppn, Kind;
  }

  /** The page that virtual page `w` is to get can be mapped there. */
  predicate MayTake(s: St, v: nat, p: nat, w: nat)
    requires v <= w
  {
    Mappable(s, w, p + (w - v))
  }

  /** The next page can still be mapped, and is mapped only if it was. */
  lemma StillMappable(s: St, s': St, r: nat, v: nat, p: nat, f: nat, k: nat)
    requires MappedRange(s, s', r, v, k, p, f) && RangeOk(v, k + 1) && Mappable(s, v + k, p + k)
    ensures Mappable(s', v + k, p + k) && Pte(s', r, v + k) == Pte(s, r, v + k)
  {
    hide Inv, Pte;
    if v + k < PAGES - 2 {
      assert GrownPage(s.owner[p + k], s.mem[p + k], s'.owner[p + k], s'.mem[p + k], r);
    }
  }

  lemma MappedMore(s: St, s1: St, s2: St, r: nat, v: nat, n: nat, p: nat, f: nat)
    requires MappedRange(s, s1, r, v, n, p, f) && RangeOk(v, n + 1)
    requires Mappable(s, v + n, p + n) && MappedPage(s1, s2, r, v + n, p + n, (p + n) * 1024 + f)
    ensures MappedRange(s, s2, r, v, n + 1, p, f)
  {
    hide Inv, Pte, TabOf, GrownBut;
    MappedMoreFrame(s, s1, s2, r, v, n, p, f);
    forall r': nat, w: nat
      ensures Pte(s2, r', w) == if r' == r && v <= w < v + n + 1 then (p + (w - v)) * 1024 + f else Pte(s, r', w)
    {
      assert Pte(s1, r', w) == if r' == r && v <= w < v + n then (p + (w - v)) * 1024 + f else Pte(s, r', w);
    }
  }

  lemma MappedMoreFrame(s: St, s1: St, s2: St, r: nat, v: nat, n: nat, p: nat, f: nat)
    requires MappedRange(s, s1, r, v, n, p, f) && RangeOk(v, n + 1)
    requires Mappable(s, v + n, p + n) && MappedPage(s1, s2, r, v + n, p + n, (p + n) * 1024 + f)
    ensures GrownBut(s, s2, r, p, if v < PAGES - 2 then p + n + 1 else p)
    ensures v < PAGES - 2 ==> p + n + 1 <= |s.mem| && forall x: nat | p <= x < p + n + 1 :: Taken(s, s2, r, v, p, x)
  {
    hide Inv, Pte, TabOf;
    var hi := if v < PAGES - 2 then p + n + 1 else p;
    assert GrownBut(s, s1, r, p, hi) && GrownBut(s1, s2, r, p, hi);
    GrownButTrans(s, s1, s2, r, p, hi);
    if v < PAGES - 2 {
      forall x: nat | p <= x < p + n + 1
        ensures Taken(s, s2, r, v, p, x)
      {
        if x < p + n {
          assert Taken(s, s1, r, v, p, x);
          assert GrownPage(s1.owner[x], s1.mem[x], s2.owner[x], s2.mem[x], r);
        } else {
          assert GrownPage(s.owner[x], s.mem[x], s1.owner[x], s1.mem[x], r);
        }
      }
    }
  }

  /** A walk that ran out of pages halfway changes nothing more. */
  lemma MappedGrown(s: St, s1: St, s2: St, r: nat, v: nat, n: nat, p: nat, f: nat)
    requires MappedRange(s, s1, r, v, n, p, f) && Grown(s1, s2, r)
    ensures MappedRange(s, s2, r, v, n, p, f)
  {
    hide Inv, Pte, TabOf;
    var hi := if v < PAGES - 2 then p + n else p;
    assert GrownBut(s1, s2, r, p, hi);
    GrownButTrans(s, s1, s2, r, p, hi);
    forall r': nat, w: nat
      ensures Pte(s2, r', w) == if r' == r && v <= w < v + n then (p + (w - v)) * 1024 + f else Pte(s, r', w)
    {
      assert Pte(s2, r', w) == Pte(s1, r', w);
    }
    if v < PAGES - 2 {
      forall x: nat | p <= x < p + n
        ensures Taken(s, s2, r, v, p, x)
      {
        assert Taken(s, s1, r, v, p, x);
        assert GrownPage(s1.owner[x], s1.mem[x], s2.owner[x], s2.mem[x], r);
      }
    }
  }

  // ---- unmapping ----

  /** A user page of tree `r` at one of the virtual pages [v, v+n). */
  predicate InRange(u: Use, r: nat, v: nat, n: nat)
  {
    u.User? && u.root == r && u.tab.T0? && v <= Vpn(u.tab.i2, u.tab.i1, u.i) < v + n
  }

  predicate UnmappedPage(u: Use, m: Page, u': Use, m': Page, r: nat, v: nat, n: nat)
  {
    if InRange(u, r, v, n) then u' == Free
    else u' == u && (u.Free? || (u.Table? && u.root == r) || m' == m)
  }

  /** Pages [v, v+n) of tree `r` are gone, their physical pages free unless lent; everything else as before. */
  ghost predicate Unmapped(s: St, s': St, r: nat, v: nat, n: nat)
  {
    && Inv(s') && s'.lo == s.lo && |s'.mem| == |s.mem| == |s.owner| == |s'.owner|
    && (forall p: nat {:trigger s.owner[p]} {:trigger s'.owner[p]} | p < |s.owner| ::
          UnmappedPage(s.owner[p], s.mem[p], s'.owner[p], s'.mem[p], r, v, n))
    && (forall r': nat, w: nat {:trigger Pte(s', r', w)} ::
          Pte(s', r', w) == if r' == r && v <= w < v + n then 0 else Pte(s, r', w))
  }

  lemma UnmappedNone(s: St, r: nat, v: nat)
    requires Inv(s)
    ensures Unmapped(s, s, r, v, 0)
  {
    hide Pte, Valid, Leaf, UserBit, Lent, Ppn, Kind, Vpn;
  }

  lemma UnmappedMore(s: St, s1: St, s2: St, r: nat, v: nat, n: nat)
    requires Unmapped(s, s1, r, v, n) && Unmapped(s1, s2, r, v + n, 1)
    ensures Unmapped(s, s2, r, v, n + 1)
  {
    hide Inv, Pte, Vpn;
    forall p: nat | p < |s.owner|
      ensures UnmappedPage(s.owner[p], s.mem[p], s2.owner[p], s2.mem[p], r, v, n + 1)
    {
      assert UnmappedPage(s.owner[p], s.mem[p], s1.owner[p], s1.mem[p], r, v, n);
      assert UnmappedPage(s1.owner[p], s1.mem[p], s2.owner[p], s2.mem[p], r, v + n, 1);
    }
    forall r': nat, w: nat
      ensures Pte(s2, r', w) == if r' == r && v <= w < v + n + 1 then 0 else Pte(s, r', w)
    {
      assert Pte(s1, r', w) == if r' == r && v <= w < v + n then 0 else Pte(s, r', w);
    }
  }

  lemma UnmappedKeeps(s: St, s': St, r: nat, v: nat, n: nat)
    requires Unmapped(s, s', r, v, n)
    ensures Keeps(s, s', r) && (Live(s, r) ==> Live(s', r))
  {
    hide Inv, Pte, Vpn;
  }

  /** Only page `p` is the user page at `v`. */
  lemma OneAt(s: St, r: nat, v: nat, p: nat, x: nat)
    requires Inv(s) && v < PAGES - 2 && p < |s.owner| && x < |s.owner| && s.owner[p] == User(r, TabOf(v), v % 512)
    ensures InRange(s.owner[x], r, v, 1) <==> x == p
  {
    hide Valid, Leaf, UserBit, Lent, Ppn, Down, Up, Listed, Vpn, TabOf;
    VpnSplit(v);
    TabOfIs(v);
    var u := s.owner[x];
    if InRange(u, r, v, 1) {
      assert Kind(s.lo, u, s.mem[x], x);
      VpnUnique(u.tab.i2, u.tab.i1, u.i, v / 262144, v / 512 % 512, v % 512);
    }
  }

  lemma TabOfIs(v: nat)
    ensures TabOf(v) == T0(v / 262144, v / 512 % 512)
  {
  }

  lemma CanUnmap(s: St, r: nat, v: nat)
    requires Inv(s) && v < PAGES - 2 && Pte(s, r, v) != 0
    ensures CanDrop(s, Table(r, TabOf(v)), v % 512)
  {
    OwnedSlot(v);
    hide Inv, TabOf, Lent;
  }

  /** kfree of the page and clearing of the entry. */
  lemma UnmapOwned(s: St, r: nat, v: nat)
    requires Inv(s) && v < PAGES - 2 && Pte(s, r, v) != 0
    ensures var u, p := Table(r, TabOf(v)), Ppn(Pte(s, r, v));
            u in s.at && s.at[u] < |s.mem| == |s.owner| && s.mem[s.at[u]].Entries? && |s.mem[s.at[u]].pte| == 512
            && s.lo <= p < |s.mem| && p != s.at[u] && E(s.mem, s.at[u], v % 512) == Pte(s, r, v)
    ensures var u, p := Table(r, TabOf(v)), Ppn(Pte(s, r, v));
            Unmapped(s, Release(Drop(s, u, v % 512), p), r, v, 1)
  {
    hide Inv, TabOf, Lent, InRange, CanDrop;
    var u, p := Table(r, TabOf(v)), Ppn(Pte(s, r, v));
    CanUnmap(s, r, v);
    DropKeeps(s, u, v % 512);
    LeafEntry(s, r, v);
    InvSizes(s, u);
    var s1 := Drop(s, u, v % 512);
    ReleaseKeeps(s1, p);
    var s2 := Release(s1, p);
    forall x: nat | x < |s.owner|
      ensures UnmappedPage(s.owner[x], s.mem[x], s2.owner[x], s2.mem[x], r, v, 1)
    {
      OneAt(s, r, v, p, x);
    }
    forall r': nat, w: nat
      ensures Pte(s2, r', w) == if r' == r && v <= w < v + 1 then 0 else Pte(s, r', w)
    {
      hide Pte, Drop, Release;
      DropPte(s, u, v % 512, r', w);
      assert Pte(s2, r', w) == Pte(s1, r', w);
      if TabOf(w) == TabOf(v) && w % 512 == v % 512 {
        SlotsDiffer(v, w);
      }
    }
  }

  lemma InvSizes(s: St, u: Use)
    requires Inv(s) && u in s.at && u.Table?
    ensures s.at[u] < |s.mem| == |s.owner| && s.owner[s.at[u]] == u
  {
    hide Valid, Leaf, UserBit, Lent, Ppn, Down, Up, Listed, Kind;
  }

  lemma UnmapLent(s: St, r: nat, v: nat)
    requires Inv(s) && PAGES - 2 <= v < PAGES && Table(r, TabOf(v)) in s.at
    ensures var u := Table(r, TabOf(v));
            s.at[u] < |s.mem| == |s.owner| && s.mem[s.at[u]].Entries? && |s.mem[s.at[u]].pte| == 512
            && Unmapped(s, Lend(s, u, v % 512, 0), r, v, 1)
  {
    hide Inv, TabOf, Lent, InRange;
    var u := Table(r, TabOf(v));
    OwnedSlot(v);
    LendKeeps(s, u, v % 512, 0);
    InvSizes(s, u);
    var s2 := Lend(s, u, v % 512, 0);
    forall x: nat | x < |s.owner|
      ensures UnmappedPage(s.owner[x], s.mem[x], s2.owner[x], s2.mem[x], r, v, 1)
    {
      NoneLent(s, r, v, x);
    }
    forall r': nat, w: nat
      ensures Pte(s2, r', w) == if r' == r && v <= w < v + 1 then 0 else Pte(s, r', w)
    {
      hide Pte, Lend;
      LendPte(s, u, v % 512, 0, r', w);
      if TabOf(w) == TabOf(v) && w % 512 == v % 512 {
        SlotsDiffer(v, w);
      }
    }
  }

  /** No user page sits at a lent one's address. */
  lemma NoneLent(s: St, r: nat, v: nat, x: nat)
    requires Inv(s) && v >= PAGES - 2 && x < |s.owner|
    ensures !InRange(s.owner[x], r, v, 1)
  {
    hide Valid, Leaf, UserBit, Ppn, Down, Up, Listed, Vpn;
    assert Kind(s.lo, s.owner[x], s.mem[x], x);
  }

  /** A user page is mapped where its use says. */
  lemma UserMapped(s: St, r: nat, v: nat, p: nat)
    requires Inv(s) && v < PAGES - 2 && p < |s.owner| && InRange(s.owner[p], r, v, 1)
    ensures Pte(s, r, v) != 0 && Ppn(Pte(s, r, v)) == p
  {
    hide Valid, Leaf, UserBit, Lent, Ppn, Down, Listed, Vpn;
    var u := s.owner[p];
    VpnSplit(v);
    assert Kind(s.lo, u, s.mem[p], p);
    VpnUnique(u.tab.i2, u.tab.i1, u.i, v / 262144, v / 512 % 512, v % 512);
    assert Held(s.mem, s.at, u, p);
  }

  lemma LeafFlags(s: St, r: nat, v: nat)
    requires Inv(s) && v < PAGES && Pte(s, r, v) != 0
    ensures Valid(Pte(s, r, v)) && Flags(Pte(s, r, v)) != PTE_V
  {
    hide Inv, Pte, TabOf, Ppn;
    LeafEntry(s, r, v);
  }

  lemma UnmappedInv(s: St, s': St, r: nat, v: nat, n: nat)
    requires Unmapped(s, s', r, v, n)
    ensures Inv(s')
  {
  }

  /** Freeing the page and then clearing the entry is clearing the entry and then freeing the page. */
  lemma OrderIsIrrelevant(s: St, u: Use, i: nat, p: nat, mem: seq<Page>, list: seq<nat>, owner: seq<Use>)
    requires u.Table? && u in s.at && s.at[u] < |s.mem| == |s.owner| && s.mem[s.at[u]].Entries?
             && i < |s.mem[s.at[u]].pte|
    requires p == Ppn(E(s.mem, s.at[u], i)) < |s.mem| && p != s.at[u]
    requires mem == SetEntry(Release(s, p).mem, s.at[u], i, 0) && list == Release(s, p).list
             && owner == Release(s, p).owner
    ensures St(s.lo, mem, list, owner, s.at - {Child(u, i)}) == Release(Drop(s, u, i), p)
  {
    hide Ppn;
    assert mem == Release(Drop(s, u, i), p).mem;
    assert owner == Release(Drop(s, u, i), p).owner;
  }

  predicate IsMapped(s: St, r: nat, w: nat)
  {
    w < PAGES && Pte(s, r, w) != 0
  }

  /** Pages [v, w] are mapped. */
  ghost predicate MappedTo(s: St, r: nat, v: nat, w: nat)
  {
    forall x: nat | v <= x <= w :: IsMapped(s, r, x)
  }

  /** An entry that is not valid is zero. */
  lemma NotMapped(s: St, r: nat, v: nat)
    requires Inv(s) && v < PAGES && !Valid(Pte(s, r, v))
    ensures Pte(s, r, v) == 0
  {
    hide Inv, Pte, Valid;
    if Pte(s, r, v) != 0 {
      LeafEntry(s, r, v);
    }
  }

  /** How often uvmunmap's loop goes round, with its bound in 64 bits. */
  function Rounds(va: uint64, npages: uint64): nat
  {
    var bound := (va + npages * PGSIZE) % 0x1_0000_0000_0000_0000;
    if bound <= va then 0 else (bound - va) / PGSIZE
  }

  lemma BoundIs(va: uint64, npages: uint64)
    requires va % PGSIZE == 0
    ensures var bound := (va + npages * PGSIZE) % 0x1_0000_0000_0000_0000;
            if bound <= va then Rounds(va, npages) == 0 else bound == va + Rounds(va, npages) * PGSIZE
  {
    var x := va + npages * PGSIZE;
    assert x == (va / PGSIZE + npages) * PGSIZE;
    assert 0x1_0000_0000_0000_0000 == PGSIZE * 0x10_0000_0000_0000;
    var q := x / 0x1_0000_0000_0000_0000;
    assert x % 0x1_0000_0000_0000_0000 == (va / PGSIZE + npages - q * 0x10_0000_0000_0000) * PGSIZE;
  }

  lemma SmallRounds(va: uint64, npages: nat)
    requires va <= MAXVA && npages <= PAGES
    ensures npages < 0x1_0000_0000_0000_0000 && Rounds(va, npages) == npages
  {
  }

  // ---- uvmdealloc ----

  /** The conversion of a page count to int and back to 64 bits. */
  function AsInt(n: nat): uint64
  {
    var x := n % 0x1_0000_0000;
    if x < 0x8000_0000 then x else 0xFFFF_FFFF_0000_0000 + x
  }

  /** How many pages uvmdealloc tries to unmap. */
  function GivesUp(oldsz: uint64, newsz: uint64): nat
  {
    if newsz >= oldsz || PgRoundUp(newsz) >= PgRoundUp(oldsz) then 0
    else Rounds(PgRoundUp(newsz), AsInt((PgRoundUp(oldsz) - PgRoundUp(newsz)) / PGSIZE))
  }

  lemma GivesUpIs(oldsz: uint64, newsz: uint64)
    ensures PgRoundUp(newsz) % PGSIZE == 0 && PgRoundUp(newsz) / PGSIZE == PageCount(newsz)
    ensures newsz < oldsz && PgRoundUp(newsz) < PgRoundUp(oldsz) ==>
              GivesUp(oldsz, newsz) == Rounds(PgRoundUp(newsz), AsInt((PgRoundUp(oldsz) - PgRoundUp(newsz)) / PGSIZE))
    ensures newsz >= oldsz || PgRoundUp(newsz) >= PgRoundUp(oldsz) ==> GivesUp(oldsz, newsz) == 0
  {
    hide Rounds, AsInt;
  }

  lemma RoundsExact(va: uint64, n: nat)
    requires n < 0x8000_0000 && va + n * PGSIZE < 0x1_0000_0000_0000_0000
    ensures AsInt(n) == n && Rounds(va, n) == n
  {
  }

  lemma PagesBetween(oldsz: uint64, newsz: uint64)
    requires newsz < oldsz <= 0x7FF_FFFF_F000
    ensures newsz <= PgRoundUp(newsz) <= PgRoundUp(oldsz) <= 0x7FF_FFFF_F000
    ensures (PgRoundUp(oldsz) - PgRoundUp(newsz)) / PGSIZE == PageCount(oldsz) - PageCount(newsz) < 0x8000_0000
    ensures PgRoundUp(newsz) + (PageCount(oldsz) - PageCount(newsz)) * PGSIZE == PgRoundUp(oldsz)
  {
  }

  /** Up to 8 TiB the pages given up are those between the two sizes. */
  lemma GivesUpBetween(oldsz: uint64, newsz: uint64)
    requires oldsz <= 0x7FF_FFFF_F000
    ensures GivesUp(oldsz, newsz) == if newsz < oldsz then PageCount(oldsz) - PageCount(newsz) else 0
  {
    hide Rounds, AsInt, PageCount, PgRoundUp;
    if newsz < oldsz {
      PagesBetween(oldsz, newsz);
      RoundsExact(PgRoundUp(newsz), PageCount(oldsz) - PageCount(newsz));
    }
  }

  lemma TrueSize(oldsz: uint64, newsz: uint64)
    requires oldsz <= TRAPFRAME
    ensures newsz < oldsz ==> PageCount(newsz) + GivesUp(oldsz, newsz) == PageCount(oldsz)
    ensures newsz >= oldsz ==> GivesUp(oldsz, newsz) == 0
  {
    hide Rounds, AsInt, PageCount, PgRoundUp, GivesUp;
    GivesUpBetween(oldsz, newsz);
  }

  /** All pages that uvmdealloc tries to unmap are among the first `n`. */
  predicate DeallocOk(oldsz: uint64, newsz: uint64, n: nat)
  {
    GivesUp(oldsz, newsz) == 0 || PageCount(newsz) + GivesUp(oldsz, newsz) <= n
  }

  /**
  For a process of `n` pages and sizes up to 8 TiB: shrinking works exactly if `oldsz` has no more pages
  than the process, or no more than `newsz`.
  */
  lemma OversizeIff(oldsz: uint64, newsz: uint64, n: nat)
    requires newsz < oldsz <= 0x7FF_FFFF_F000
    ensures DeallocOk(oldsz, newsz, n) <==> PageCount(oldsz) <= n || PageCount(oldsz) == PageCount(newsz)
  {
    hide PageCount, PgRoundUp, GivesUp;
    PagesBetween(oldsz, newsz);
    GivesUpBetween(oldsz, newsz);
  }

  /** One byte more than the process has is too much, whatever its size. */
  lemma OneByteTooMuch(n: nat)
    requires n < PAGES
    ensures !DeallocOk(n * PGSIZE + 1, n * PGSIZE, n)
  {
    OversizeIff(n * PGSIZE + 1, n * PGSIZE, n);
  }

  /**
  What becomes of `d` pages to give up from page `v` on, through the conversion to int and the 64-bit bound:
  the count modulo 2^32; or, when that is a negative int, no page if the bound ends up below the start, and
  otherwise all but the last few pages of the 64-bit address space.
  */
  function TruncatedCount(v: nat, d: nat): nat
  {
    var x := d % 0x1_0000_0000;
    if x < 0x8000_0000 then x
    else if v + x >= 0x1_0000_0000 then 0
    else 0x10_0000_0000_0000 - (0x1_0000_0000 - x)
  }

  /** Page numbers are 52 bits wide. */
  lemma PageBound(v: nat, m: int)
    ensures (v * PGSIZE + m * PGSIZE) % 0x1_0000_0000_0000_0000 == (v + m) % 0x10_0000_0000_0000 * PGSIZE
  {
    var x := v + m;
    var q, r := x / 0x10_0000_0000_0000, x % 0x10_0000_0000_0000;
    assert x * PGSIZE == q * 0x1_0000_0000_0000_0000 + r * PGSIZE;
  }

  lemma RoundsTruncated(v: nat, d: nat)
    requires v + d < 0x10_0000_0000_0000
    ensures v * PGSIZE < 0x1_0000_0000_0000_0000 && Rounds(v * PGSIZE, AsInt(d)) == TruncatedCount(v, d)
  {
    PageBound(v, AsInt(d));
    var x := d % 0x1_0000_0000;
    assert x <= d;
    var b := (v + AsInt(d)) % 0x10_0000_0000_0000;
    assert x >= 0x8000_0000 ==> v + AsInt(d) == 0x1000 * 0x10_0000_0000_0000 + v + x - 0x1_0000_0000;
    assert b == if x < 0x8000_0000 then v + x
                else if v + x >= 0x1_0000_0000 then v + x - 0x1_0000_0000
                else 0x10_0000_0000_0000 + v + x - 0x1_0000_0000;
  }

  lemma CountsOf(oldsz: uint64, newsz: uint64)
    ensures PgRoundUp(oldsz) == PageCount(oldsz) * PGSIZE && PageCount(oldsz) < 0x10_0000_0000_0000
    ensures PgRoundUp(newsz) == PageCount(newsz) * PGSIZE
    ensures PageCount(newsz) < PageCount(oldsz) ==>
              (PgRoundUp(oldsz) - PgRoundUp(newsz)) / PGSIZE == PageCount(oldsz) - PageCount(newsz)
  {
  }

  /** The pages uvmdealloc gives up, for every pair of 64-bit sizes; none if 2^32 divides their number. */
  lemma CountTruncated(oldsz: uint64, newsz: uint64)
    requires newsz < oldsz && PageCount(newsz) < PageCount(oldsz)
    ensures var d := PageCount(oldsz) - PageCount(newsz);
            GivesUp(oldsz, newsz) == TruncatedCount(PageCount(newsz), d)
            && (d < 0x8000_0000 ==> GivesUp(oldsz, newsz) == d)
            && (d % 0x1_0000_0000 == 0 ==> GivesUp(oldsz, newsz) == 0)
  {
    hide Rounds, AsInt, PageCount, PgRoundUp;
    CountsOf(oldsz, newsz);
    RoundsTruncated(PageCount(newsz), PageCount(oldsz) - PageCount(newsz));
  }

  /**
  The same with no bound on the sizes: for a process of `n` pages shrinking works exactly if there is nothing
  between the two sizes, the truncated count stays within the process, or it is a negative int whose bound
  ends up below the start.
  */
  lemma DeallocIff(oldsz: uint64, newsz: uint64, n: nat)
    requires newsz < oldsz && n <= PAGES
    ensures var v, d := PageCount(newsz), PageCount(oldsz) - PageCount(newsz);
            DeallocOk(oldsz, newsz, n) <==>
              d <= 0 || (var x := d % 0x1_0000_0000;
                         if x < 0x8000_0000 then x == 0 || v + x <= n else v + x >= 0x1_0000_0000)
  {
    hide Rounds, AsInt, PageCount, PgRoundUp;
    CountsOf(oldsz, newsz);
    if PageCount(newsz) < PageCount(oldsz) {
      CountTruncated(oldsz, newsz);
      assert PageCount(newsz) + 0x10_0000_0000_0000 - 0x8000_0000 > n;
    }
  }

  /** From one page above 16 TiB only one page is given up; from 8 TiB every process panics. */
  lemma TruncatedSizes(n: nat)
    requires n <= PAGES
    ensures GivesUp(0x1000_0000_1000, 0) == 1 && !DeallocOk(0x800_0000_0000, 0, n)
  {
    LargeCounts();
    hide PageCount, PgRoundUp, GivesUp, Rounds, AsInt;
    CountTruncated(0x1000_0000_1000, 0);
    DeallocIff(0x800_0000_0000, 0, n);
  }

  lemma LargeCounts()
    ensures PageCount(0) == 0 && PageCount(0x1000_0000_1000) == 0x1_0000_0001
    ensures PageCount(0x800_0000_0000) == 0x8000_0000
  {
  }

  lemma StillMapped(s: St, s': St, r: nat, v: nat, n: nat, w: nat)
    requires Unmapped(s, s', r, v, n) && w >= v + n
    ensures Pte(s', r, w) == Pte(s, r, w)
  {
    hide Inv, Pte;
  }
}
