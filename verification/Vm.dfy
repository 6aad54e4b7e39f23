/** kernel/vm.c and kernel/kalloc.c over physical pages. Page-table pointers and physical addresses are page numbers. */
module Vm {
  import opened Sv39
  import opened PageTree
  import opened PageSteps
  import opened VmFrame
  import opened VmRanges
  import opened VmGrow
  import opened VmFree
  import opened VmCopy
  import opened VmCost

  /** How mappages ends: done, no page for a table, or one of its panics. */
  datatype MapResult = Done | NoPage | Remap | BadRange

  class Memory {
    const lo: nat                       // PGROUNDUP(end) / PGSIZE; the end of `mem` is PHYSTOP
    var mem: seq<Page>
    var freelist: nat
    ghost var list: seq<nat>
    ghost var owner: seq<Use>
    ghost var at: map<Use, nat>

    ghost function S(): St
      reads this
    {
      St(lo, mem, list, owner, at)
    }

    ghost predicate Valid()
      reads this
    {
      Inv(S()) && freelist == Head(list)
    }

    /** kinit and freerange: every page from the kernel's end on is put on the list. */
    constructor (first: nat)
      requires 0 < first <= PHYS_PAGES
      ensures Valid() && lo == first && forall p | 0 <= p < PHYS_PAGES :: owner[p] == if p < first then Other else Free
    {
      lo := first;
      mem := seq(PHYS_PAGES, _ => Filled(0));
      freelist, list, at := 0, [], map[];
      owner := seq(PHYS_PAGES, _ => Other);
      new;
      var p := first;
      while p < PHYS_PAGES
        invariant first <= p <= PHYS_PAGES && Valid()
        invariant forall q | 0 <= q < PHYS_PAGES :: owner[q] == if first <= q < p then Free else Other
      {
        hide Inv;
        InvMem(S());
        ReleaseKeeps(S(), p);
        var freed := Kfree(p);
        p := p + 1;
      }
    }

    /** Pops the free list; 0 if it is empty. */
    method Kalloc() returns (p: nat)
      requires Valid()
      modifies this
      ensures Valid() && (p == 0 <==> old(list) == [])
      ensures if p == 0 then S() == old(S())
              else p == old(list)[0] < |old(mem)| == |old(owner)| && S() == Alloc(old(S()))
      ensures p != 0 ==> lo <= p && old(owner)[p] == Free
    {
      hide Kind, Known, Down, Up;
      assert list != [] ==> list[0] in list;
      p := freelist;
      if p != 0 {
        AllocKeeps(S());
        freelist := mem[p].next;
        mem := mem[p := Filled(5)];
        list, owner := list[1..], owner[p := Other];
      }
    }

    /** Pushes a page; false is the panic on an address outside the allocator's range. */
    method Kfree(p: nat) returns (ok: bool)
      requires freelist == Head(list) && |mem| == |owner|
      modifies this
      ensures |old(mem)| == |old(owner)| && freelist == Head(list) && (ok <==> lo <= p < |old(mem)|)
      ensures S() == if ok then Release(old(S()), p) else old(S())
    {
      if p < lo || p >= |mem| {
        return false;
      }
      mem := mem[p := Run(freelist)];
      freelist := p;
      list, owner := [p] + list, owner[p := Free];
      return true;
    }

    /** The allocating branch of walk: a new table in slot `i` of table `pt`; false if there is no page. */
    method NewTable(ghost u: Use, pt: nat, i: nat) returns (q: nat)
      requires Valid() && u.Table? && !u.tab.T0? && u in at && at[u] == pt && i < 512 && (u.tab == T2 ==> i < 256)
      requires E(mem, pt, i) == 0
      modifies this
      ensures Valid() && Grown(old(S()), S(), u.root)
      ensures q == 0 ==> S() == old(S()) && list == []
      ensures q != 0 ==> u in at && at[u] == pt && Child(u, i) in at && at[Child(u, i)] == q
      ensures q != 0 ==> Spent(old(S()), S(), u.root, {Child(u, i).tab}, 0)
      ensures Child(u, i) !in old(at)
    {
      hide Inv, GrownPage, Spent;
      ghost var s := S();
      WalkStep(s, u, i);
      ZeroPte();
      q := Kalloc();
      if q == 0 {
        GrownSelf(s, u.root);
        return;
      }
      TableFits(s, S(), u, i, q);
      mem := mem[q := ZeroTable()];
      mem := SetEntry(mem, pt, i, Pa2Pte(q * PGSIZE) + PTE_V);
      owner, at := owner[q := Child(u, i)], at[Child(u, i) := q];
      GrownAdd(s, u, i, q);
      SpentOne(s, S(), u.root, Child(u, i).tab, q);
    }

    /**
    walk: the leaf table of `va` and the index in it. With `alloc` it adds the missing tables, which
    changes no translation; it fails only without `alloc` or without free pages. `ok` false is the
    panic on an address from MAXVA on.
    */
    method Walk(r: nat, va: nat, alloc: bool) returns (ok: bool, found: bool, pt: nat, i: nat)
      requires Valid() && Live(S(), r)
      modifies this
      ensures Valid() && Grown(old(S()), S(), r) && Live(S(), r) && (!alloc ==> S() == old(S()))
      ensures (ok <==> va < MAXVA) && (!ok ==> !found && S() == old(S()))
      ensures ok ==> i == va / PGSIZE % 512
      ensures found ==> Table(r, TabOf(va / PGSIZE)) in at && at[Table(r, TabOf(va / PGSIZE))] == pt
      ensures ok && !found ==> Table(r, TabOf(va / PGSIZE)) !in at && (alloc ==> list == [])
      ensures found ==> Spent(old(S()), S(), r, Way(va / PGSIZE), 0)
      ensures ok && alloc && !found ==> TooFew(old(S()), r, Way(va / PGSIZE), 0)
    {
      hide Inv, Grown, Px, TabOf, Spent, TooFew, Way, Passed;
      ghost var s0 := S();
      GrownSelf(S(), r);
      ok, found, pt, i := va < MAXVA, false, r, 0;
      if !ok {
        return;
      }
      WalkEnds(r, va);
      LiveRoot(S(), r);
      SpentNone(S(), r, {});
      NonePassed(va);
      i := Px(0, va);
      var level := 2;
      while level > 0
        invariant level <= 2 && Valid() && Grown(s0, S(), r) && (!alloc ==> S() == s0)
        invariant UseAt(r, level, va) in at && at[UseAt(r, level, va)] == pt && Spent(s0, S(), r, Passed(va, level), 0)
      {
        ghost var u := UseAt(r, level, va);
        ghost var s1 := S();
        WalkStep(s1, u, Px(level, va));
        UseBelow(r, level, va);
        var e := E(mem, pt, Px(level, va));
        if Sv39.Valid(e) {
          pt := Ppn(e);
        } else {
          var q := 0;
          if alloc {
            q := NewTable(u, pt, Px(level, va));
          }
          if q == 0 {
            NothingBelow(s1, r, level, va);
            LiveKept(s0, s1, r);
            if alloc {
              WalkStops(s0, s1, r, level, va);
            }
            return true, false, pt, i;
          }
          GrownTrans(s0, s1, S(), r);
          pt := q;
        }
        WalkGoesOn(s0, s1, S(), r, level, va);
        level := level - 1;
      }
      LiveKept(s0, S(), r);
      PassedAll(va);
      found := true;
    }

    /**
    The body of mappages' loop: the page at `a` now translates to page `q`; no page for a table; or it was
    mapped.
    */
    method MapOne(r: nat, a: nat, q: nat, perm: nat) returns (res: MapResult)
      requires Valid() && Live(S(), r) && a < MAXVA
      requires Mappable(S(), a / PGSIZE, q) && q < 0x10_0000_0000_0000 && perm < 1024 && Leaf(WithV(perm))
      requires a / PGSIZE >= PAGES - 2 ==> !UserBit(WithV(perm))
      modifies this
      ensures Valid() && Live(S(), r) && !res.BadRange? && (res.Remap? <==> Pte(old(S()), r, a / PGSIZE) != 0)
      ensures res.Done? ==> MappedPage(old(S()), S(), r, a / PGSIZE, q, q * 1024 + WithV(perm))
      ensures !res.Done? ==> Grown(old(S()), S(), r) && (res.NoPage? ==> list == [])
      ensures if res.NoPage? then TooFew(old(S()), r, Way(a / PGSIZE), 0)
              else Spent(old(S()), S(), r, Way(a / PGSIZE), 0)
    {
      hide Inv, TabOf, Grown, MappedPage, Leaf, UserBit, Spent, TooFew, Way;
      ghost var s0, v := S(), a / PGSIZE;
      var low, found, pt, i := Walk(r, a, true);
      ghost var s1 := S();
      EntryThere(s0, s1, r, v);
      if !found {
        return NoPage;
      }
      ZeroPte();
      if Sv39.Valid(E(mem, pt, i)) {
        return Remap;
      }
      PermValid(perm);
      var e := Pa2Pte(q * PGSIZE) + WithV(perm);
      assert e == q * 1024 + WithV(perm);
      SlotFree(s0, s1, r, v);
      OwnedSlot(v);
      if v < PAGES - 2 {
        MapOwned(s0, s1, r, v, q, WithV(perm));
        assert mem[q := mem[q]] == mem;
        owner, at := owner[q := Child(Table(r, TabOf(v)), i)], at[Child(Table(r, TabOf(v)), i) := q];
      } else {
        MadePte(q, WithV(perm));
        MapLent(s0, s1, r, v, q, e);
      }
      mem := SetEntry(mem, pt, i, e);
      MappedInv(s0, S(), r, v, q, e);
      SpentKept(s0, s1, S(), r, Way(v), 0);
      return Done;
    }

    /**
    mappages: `size / PGSIZE` pages from `va` on translate to the pages from `p` on. When it fails, with no
    page left, or panics on a page that was mapped, the first `k` of them do. It panics at once on an
    unaligned or empty range.
    */
    method Mappages(r: nat, va: nat, size: nat, p: nat, perm: nat) returns (res: MapResult, ghost k: nat)
      requires Valid() && Live(S(), r) && RangeOk(va / PGSIZE, size / PGSIZE) && p + size / PGSIZE <= PHYS_PAGES
      requires perm < 1024 && Leaf(WithV(perm)) && (va / PGSIZE >= PAGES - 2 ==> !UserBit(WithV(perm)))
      requires forall w: nat | va / PGSIZE <= w < va / PGSIZE + size / PGSIZE :: MayTake(S(), va / PGSIZE, p, w)
      modifies this
      ensures Valid() && Live(S(), r) && k <= size / PGSIZE
      ensures res.BadRange? <==> va % PGSIZE != 0 || size % PGSIZE != 0 || size == 0
      ensures res.BadRange? ==> S() == old(S())
      ensures !res.BadRange? ==> MappedRange(old(S()), S(), r, va / PGSIZE, k, p, WithV(perm))
      ensures !res.BadRange? ==> forall w: nat | va / PGSIZE <= w < va / PGSIZE + k :: Pte(old(S()), r, w) == 0
      ensures res.Done? <==> !res.BadRange? && k == size / PGSIZE
      ensures res.NoPage? ==> list == [] && Pte(old(S()), r, va / PGSIZE + k) == 0
      ensures res.Remap? ==> Pte(old(S()), r, va / PGSIZE + k) != 0
      ensures res.Done? ==> Spent(old(S()), S(), r, Ways(va / PGSIZE, k), 0)
      ensures res.NoPage? ==> TooFew(old(S()), r, Ways(va / PGSIZE, k + 1), 0)
    {
      hide MappedPage, MappedRange, Grown, Leaf, UserBit, Pte, Mappable, Kind, Known, Down, Up, Listed;
      hide Spent, TooFew, Way;
      ghost var s0, v := S(), va / PGSIZE;
      k := 0;
      if va % PGSIZE != 0 || size % PGSIZE != 0 || size == 0 {
        return BadRange, 0;
      }
      MappedNone(s0, r, v, p, WithV(perm));
      SpentNone(s0, r, {});
      var a, last, q := va, va + size - PGSIZE, p;
      while true
        invariant a == va + k * PGSIZE && q == p + k && k < size / PGSIZE && Valid() && Live(S(), r)
        invariant MappedRange(s0, S(), r, v, k, p, WithV(perm)) && forall w: nat | v <= w < v + k :: Pte(s0, r, w) == 0
        invariant Spent(s0, S(), r, Ways(v, k), 0)
        decreases last - a
      {
        ghost var s1 := S();
        assert MayTake(s0, v, p, v + k);
        StillMappable(s0, s1, r, v, p, WithV(perm), k);
        res := MapOne(r, a, q, perm);
        if !res.Done? {
          MappedGrown(s0, s1, S(), r, v, k, p, WithV(perm));
          if res.NoPage? {
            TooFewAfter(s0, s1, r, Ways(v, k), Way(v + k), 0, 0);
          }
          return;
        }
        MappedMore(s0, s1, S(), r, v, k, p, WithV(perm));
        SpentTrans(s0, s1, S(), r, Ways(v, k), Way(v + k), 0, 0);
        k := k + 1;
        if a == last {
          break;
        }
        a, q := a + PGSIZE, q + 1;
      }
      res := Done;
    }

    /**
    The body of uvmunmap's loop; false is a panic. A page that is mapped is mapped by a leaf entry, so only a
    missing one panics.
    */
    method UnmapOne(r: nat, a: nat, doFree: bool) returns (ok: bool)
      requires Valid() && Live(S(), r) && (IsMapped(S(), r, a / PGSIZE) ==> (doFree <==> a / PGSIZE < PAGES - 2))
      modifies this
      ensures Valid() && Live(S(), r) && (ok <==> IsMapped(old(S()), r, a / PGSIZE))
      ensures if ok then Unmapped(old(S()), S(), r, a / PGSIZE, 1) else S() == old(S())
    {
      hide Inv, TabOf, Grown, Unmapped, Leaf;
      ghost var s, v := S(), a / PGSIZE;
      var low, found, pt, i := Walk(r, a, false);
      ZeroPte();
      if !low || !found {                       // walk; uvmunmap: walk
        return false;
      }
      var e := E(mem, pt, i);
      if !Sv39.Valid(e) {                       // uvmunmap: not mapped
        NotMapped(s, r, v);
        return false;
      }
      LeafFlags(s, r, v);
      if Flags(e) == PTE_V {                    // uvmunmap: not a leaf
        assert false;
        return false;
      }
      if doFree {
        UnmapOwned(s, r, v);
        ok := Kfree(Ppn(e));
        at := at - {Child(Table(r, TabOf(v)), i)};
        mem := SetEntry(mem, pt, i, 0);
        OrderIsIrrelevant(s, Table(r, TabOf(v)), i, Ppn(e), mem, list, owner);
      } else {
        UnmapLent(s, r, v);
        mem := SetEntry(mem, pt, i, 0);
      }
      UnmappedInv(s, S(), r, v, 1);
      UnmappedKeeps(s, S(), r, v, 1);
      ok := true;
    }

    /**
    uvmunmap, with the loop's 64-bit bound: false is a panic, on an unaligned address or on a page of the
    range that is not mapped, after the `k` pages before it; else the whole range is unmapped.
    */
    method Uvmunmap(r: nat, va: uint64, npages: uint64, doFree: bool) returns (ok: bool, ghost k: nat)
      requires Valid() && Live(S(), r)
      requires forall w: nat | va / PGSIZE <= w < va / PGSIZE + Rounds(va, npages)
                 && MappedTo(S(), r, va / PGSIZE, w) ::
                 doFree <==> w < PAGES - 2
      modifies this
      ensures Valid() && Live(S(), r) && k <= Rounds(va, npages) && Unmapped(old(S()), S(), r, va / PGSIZE, k)
      ensures ok <==> va % PGSIZE == 0 && forall w: nat | va / PGSIZE <= w < va / PGSIZE + Rounds(va, npages) ::
                                            IsMapped(old(S()), r, w)
      ensures if ok then k == Rounds(va, npages)
              else (va % PGSIZE != 0 && k == 0) || !IsMapped(old(S()), r, va / PGSIZE + k)
    {
      hide Inv, Unmapped, Pte;
      ghost var s0, v := S(), va / PGSIZE;
      k := 0;
      UnmappedNone(s0, r, v);
      if va % PGSIZE != 0 {
        return false, 0;
      }
      BoundIs(va, npages);
      var a: nat := va;
      var bound := (va + npages * PGSIZE) % 0x1_0000_0000_0000_0000;
      while a < bound
        invariant a == va + k * PGSIZE && k <= Rounds(va, npages) && Valid() && Live(S(), r)
                  && Unmapped(s0, S(), r, v, k)
        invariant forall w: nat | v <= w < v + k :: IsMapped(s0, r, w)
      {
        ghost var s1 := S();
        StillMapped(s0, s1, r, v, k, v + k);
        assert IsMapped(s0, r, v + k) ==> MappedTo(s0, r, v, v + k);
        ok := UnmapOne(r, a, doFree);
        if !ok {
          return;
        }
        UnmappedMore(s0, s1, S(), r, v, k);
        k := k + 1;
        a := a + PGSIZE;
      }
      ok := true;
    }

    /** On a range that is mapped uvmunmap does not panic. */
    method UnmapAll(r: nat, va: uint64, npages: nat, doFree: bool)
      requires Valid() && Live(S(), r) && va % PGSIZE == 0 && RangeOk(va / PGSIZE, npages)
               && (doFree <==> va / PGSIZE < PAGES - 2)
      requires forall w: nat | va / PGSIZE <= w < va / PGSIZE + npages :: Pte(S(), r, w) != 0
      modifies this
      ensures Valid() && Live(S(), r) && Unmapped(old(S()), S(), r, va / PGSIZE, npages)
    {
      hide Inv, Unmapped, Pte;
      SmallRounds(va, npages);
      var ok;
      ghost var k;
      ok, k := Uvmunmap(r, va, npages, doFree);
      assert ok;
    }

    /**
    uvmdealloc on a process of `n` pages; `ok` false is uvmunmap's panic. Exactly the sizes whose pages are all
    there can be given up; from the true size the process shrinks.
    */
    method Uvmdealloc(r: nat, oldsz: uint64, newsz: uint64, ghost n: nat) returns (ok: bool, sz: uint64)
      requires Valid() && Live(S(), r) && Sized(S(), r, n)
      requires newsz < oldsz ==> !(PAGES - 2 <= PageCount(newsz) < PAGES)
      modifies this
      ensures Valid() && Live(S(), r)
      ensures ok <==> DeallocOk(oldsz, newsz, n)
      ensures ok <==> forall w: nat | PageCount(newsz) <= w < PageCount(newsz) + GivesUp(oldsz, newsz) ::
                        IsMapped(old(S()), r, w)
      ensures ok ==> sz == (if newsz < oldsz then newsz else oldsz)
      ensures ok ==> Unmapped(old(S()), S(), r, PageCount(newsz), GivesUp(oldsz, newsz))
      ensures ok && PageCount(oldsz) == n && oldsz <= TRAPFRAME ==>
                Sized(S(), r, PageCount(sz)) && PageCount(sz) + GivesUp(oldsz, newsz) == n
    {
      hide Inv, Unmapped, Pte, PageCount, PgRoundUp, Rounds, GivesUp;
      ghost var s0, v, g := S(), PageCount(newsz), GivesUp(oldsz, newsz);
      UnmappedNone(s0, r, v);
      GivesUpIs(oldsz, newsz);
      SizeBounded(s0, r, n);
      if newsz >= oldsz {
        return true, oldsz;
      }
      OnlyMappedReached(s0, r, n, v, g);
      if PgRoundUp(newsz) < PgRoundUp(oldsz) {
        var npages := AsInt((PgRoundUp(oldsz) - PgRoundUp(newsz)) / PGSIZE);
        ghost var k;
        ok, k := Uvmunmap(r, PgRoundUp(newsz), npages, true);
        if !ok {
          return false, 0;
        }
      }
      if PageCount(oldsz) == n && oldsz <= TRAPFRAME {
        TrueSize(oldsz, newsz);
        SizedShrinks(s0, S(), r, v, g);
      }
      return true, newsz;
    }

    /** One round of uvmalloc or uvmcopy: a new page with contents `m` at `a`, given back if it cannot be mapped. */
    method GrowOne(r: nat, a: nat, m: Page, perm: nat) returns (ok: bool, ghost mid: St)
      requires Valid() && Live(S(), r) && a % PGSIZE == 0 && a / PGSIZE < PAGES - 2 && Pte(S(), r, a / PGSIZE) == 0
      requires m.Data? && |m.bytes| == PGSIZE && perm < 1024 && Leaf(WithV(perm))
      modifies this
      ensures Valid() && Live(S(), r) && (old(list) == [] ==> !ok && S() == old(S()))
      ensures old(list) != [] ==> old(list)[0] < |old(mem)| == |old(owner)|
      ensures ok ==> MappedPage(Taking(old(S()), m), S(), r, a / PGSIZE, old(list)[0],
                                old(list)[0] * 1024 + WithV(perm))
      ensures !ok && old(list) != [] ==> Grown(Taking(old(S()), m), mid, r) && old(list)[0] < |mid.mem| == |mid.owner|
                                         && S() == Release(mid, old(list)[0])
      ensures if ok then Spent(old(S()), S(), r, Way(a / PGSIZE), 1) else TooFew(old(S()), r, Way(a / PGSIZE), 1)
    {
      hide Inv, Pte, MappedRange, MappedPage, Grown, Leaf, Filled, Spent, TooFew, Way, Ways;
      mid := S();
      ghost var s0 := S();
      var q := Kalloc();
      if q == 0 {
        NoPageAtAll(s0, r, Way(a / PGSIZE));
        return false, mid;
      }
      TakingKeeps(s0, m);
      mem := mem[q := m];
      assert S() == Taking(s0, m);
      assert Pte(Taking(s0, m), r, a / PGSIZE) == Pte(s0, r, a / PGSIZE);
      assert Mappable(Taking(s0, m), a / PGSIZE, s0.list[0]);
      VacantOne(Taking(s0, m), r, a / PGSIZE, q);
      InvMem(S());
      var res;
      ghost var k;
      res, k := Mappages(r, a, PGSIZE, q, perm);
      ok := res.Done?;
      mid := S();
      OnePage(Taking(s0, m), mid, r, a / PGSIZE, k, q, WithV(perm));
      OneWay(a / PGSIZE);
      if ok {
        SpentFirst(s0, Taking(s0, m), mid, r, Way(a / PGSIZE), 0);
      } else {
        TooFewFirst(s0, Taking(s0, m), r, Way(a / PGSIZE), 0);
        PageBack(Taking(s0, m), mid, r, q);
        var freed := Kfree(q);
      }
    }

    /**
    uvmalloc on a process of size `oldsz`: zeroed pages up to `newsz`, or nothing but some page-table pages
    more. Memory runs out before the new pages reach TRAPFRAME, however large `newsz` is.
    */
    method Uvmalloc(r: nat, oldsz: uint64, newsz: uint64, xperm: nat) returns (sz: uint64, ghost ok: bool)
      requires Valid() && Live(S(), r) && oldsz <= TRAPFRAME && Sized(S(), r, PageCount(oldsz))
               && xperm in {0, PTE_W, PTE_X, PTE_W + PTE_X}
      modifies this
      ensures Valid() && Live(S(), r) && (ok <==> sz != 0 || newsz == 0)
      ensures newsz < oldsz ==> sz == oldsz && S() == old(S())
      ensures ok && newsz >= oldsz ==>
                sz == newsz && PageCount(oldsz) <= PageCount(newsz) && Sized(S(), r, PageCount(newsz))
                && Extended(old(S()), S(), r, PageCount(oldsz), PageCount(newsz) - PageCount(oldsz))
                && Blank(S(), r, PageCount(oldsz), PageCount(newsz) - PageCount(oldsz), PTE_V + PTE_R + PTE_U + xperm)
      ensures !ok ==> Grown(old(S()), S(), r)
      ensures newsz >= oldsz ==>
                var v, n := PageCount(oldsz), PagesFor(newsz) - PageCount(oldsz);
                n >= 0 && (ok <==> !TooFew(old(S()), r, Ways(v, n), n))
    {
      hide Inv, Pte, Sized, Extended, Blank, PageCount, PgRoundUp, MappedPage, Grown, Spent, TooFew, Way, PagesFor;
      if newsz < oldsz {
        return oldsz, true;
      }
      ghost var s0, v, k: nat := S(), PageCount(oldsz), 0;
      RoundUps(oldsz, oldsz);
      ExtendedNone(s0, r, v);
      NoneBlank(s0, r, v, PTE_V + PTE_R + PTE_U + xperm);
      SpentNone(s0, r, {});
      PagesForMore(oldsz, newsz, v);
      var a: nat := PgRoundUp(oldsz);
      while a < newsz
        invariant a == (v + k) * PGSIZE && Valid() && Live(S(), r) && v + k <= PAGES - 2
                  && (k > 0 ==> a - PGSIZE < newsz)
        invariant Extended(s0, S(), r, v, k) && Sized(S(), r, v + k)
                  && Blank(S(), r, v, k, PTE_V + PTE_R + PTE_U + xperm)
        invariant Spent(s0, S(), r, Ways(v, k), k)
      {
        ghost var s1 := S();
        SizeBounded(s1, r, v + k);
        NextUnmapped(s1, r, v + k);
        PermLeaf(xperm);
        var done;
        ghost var mid;
        done, mid := GrowOne(r, a, Filled(0), PTE_R + PTE_U + xperm);
        if !done {
          if s1.list != [] {
            ExtendedFails(s0, s1, mid, r, v, k, Filled(0));
          }
          UndoGrowth(r, a, PgRoundUp(oldsz), s0);
          PagesForMore(oldsz, newsz, v + k);
          TooFewFor(s0, s1, r, v, k, PagesFor(newsz) - v);
          return 0, false;
        }
        ExtendedMore(s0, s1, S(), r, v, k, Filled(0), s1.list[0] * 1024 + WithV(PTE_R + PTE_U + xperm));
        BlankMore(s1, S(), r, v, k, PTE_V + PTE_R + PTE_U + xperm, s1.list[0] * 1024 + WithV(PTE_R + PTE_U + xperm));
        SizedGrows(s0, S(), r, v, k + 1);
        SpentTrans(s0, s1, S(), r, Ways(v, k), Way(v + k), k, 1);
        k := k + 1;
        a := a + PGSIZE;
      }
      RoundTarget(oldsz, newsz, k);
      PagesForMore(oldsz, newsz, v + k);
      SpentEnough(s0, S(), r, Ways(v, k), k);
      return newsz, true;
    }

    /** uvmalloc's way out: uvmdealloc from `a` back to `oldsz`. */
    method UndoGrowth(r: nat, a: nat, oldsz: nat, ghost s0: St)
      requires Valid() && Live(S(), r) && Inv(s0) && oldsz % PGSIZE == 0 && a % PGSIZE == 0 && oldsz <= a <= TRAPFRAME
      requires Sized(s0, r, oldsz / PGSIZE) && Extended(s0, S(), r, oldsz / PGSIZE, a / PGSIZE - oldsz / PGSIZE)
      modifies this
      ensures Valid() && Live(S(), r) && Grown(s0, S(), r)
    {
      hide Inv, Pte, Extended, PageCount, PgRoundUp, Grown, Unmapped;
      ghost var s1, v, k := S(), oldsz / PGSIZE, a / PGSIZE - oldsz / PGSIZE;
      SizedGrows(s0, s1, r, v, k);
      AlignedCount(a);
      AlignedCount(oldsz);
      TrueSize(a, oldsz);
      var ok, sz := Uvmdealloc(r, a, oldsz, v + k);
      assert ok;
      ExtendedUndone(s0, s1, S(), r, v, k);
    }

    /**
    uvmcopy: the pages of tree `r` copied into the empty tree `c`, flags and contents, or nothing but some
    page-table pages of `c` more. Neither panic can happen on a process of size `sz`.
    */
    method Uvmcopy(r: nat, c: nat, sz: uint64) returns (ok: bool)
      requires Valid() && Live(S(), r) && Live(S(), c) && r != c && sz <= TRAPFRAME
      requires Sized(S(), r, PageCount(sz)) && Sized(S(), c, 0)
      modifies this
      ensures Valid() && Live(S(), c)
      ensures ok ==> Extended(old(S()), S(), c, 0, PageCount(sz)) && Sized(S(), c, PageCount(sz))
                     && CopiedPages(old(S()), r, S(), c, PageCount(sz))
      ensures !ok ==> Grown(old(S()), S(), c)
      ensures ok <==> !TooFew(old(S()), c, Ways(0, PageCount(sz)), PageCount(sz))
    {
      hide Inv, Pte, Sized, Extended, CopiedPages, PageCount, PgRoundUp, MappedPage, Grown, Spent, TooFew, Way;
      ghost var s0, k: nat := S(), 0;
      RoundUps(sz, sz);
      ExtendedNone(s0, c, 0);
      NoneCopied(s0, r, s0, c);
      SpentNone(s0, c, {});
      var i := 0;
      while i < sz
        invariant i == k * PGSIZE && k <= PageCount(sz) && Valid() && Live(S(), r) && Live(S(), c)
        invariant Extended(s0, S(), c, 0, k) && Sized(S(), c, k) && CopiedPages(s0, r, S(), c, k)
        invariant Spent(s0, S(), c, Ways(0, k), k)
      {
        ghost var s1 := S();
        ParentMapped(s0, r, PageCount(sz), k);
        ParentKept(s0, s1, c, k, r, k);
        FlagsReused(s0, r, k);
        NextUnmapped(s1, c, k);
        var low, found, pt, j := Walk(r, i, false);
        TablesThere(s1, r, k);
        assert found;                           // uvmcopy: pte should exist
        var e := E(mem, pt, j);
        assert e == Pte(s0, r, k) && Sv39.Valid(e);     // uvmcopy: page not present
        var m := mem[Ppn(e)];
        var done;
        ghost var mid;
        done, mid := GrowOne(c, i, m, Flags(e));
        if !done {
          if s1.list != [] {
            ExtendedFails(s0, s1, mid, c, 0, k, m);
          }
          ghost var s2 := S();
          UndoReady(s0, s2, c, k);
          UnmapAll(c, 0, i / PGSIZE, true);
          ExtendedUndone(s0, s2, S(), c, 0, k);
          TooFewFor(s0, s1, c, 0, k, PageCount(sz));
          return false;
        }
        ExtendedMore(s0, s1, S(), c, 0, k, m, s1.list[0] * 1024 + Flags(e));
        CopiedMore(s0, r, s1, S(), c, k);
        SizedGrows(s0, S(), c, 0, k + 1);
        ParentLives(s0, S(), c, 0, k + 1, r);
        SpentTrans(s0, s1, S(), c, Ways(0, k), Way(k), k, 1);
        k := k + 1;
        i := i + PGSIZE;
      }
      SpentEnough(s0, S(), c, Ways(0, k), k);
      ok := true;
    }

    /**
    freewalk on the table with use `u`, with nothing mapped below: all tables at or below it are free.
    Below the root the caller still has to clear the entry that led here.
    */
    method Freewalk(pt: nat, ghost u: Use)
      requires Valid() && u.Table? && u in at && at[u] == pt && NoLeaves(mem, owner, u)
      modifies this
      ensures freelist == Head(list) && Cut(old(S()), S(), u)
      ensures u.tab == T2 ==> Valid()
      ensures u.tab != T2 ==> Parent(u) in old(at) && Inv(ClearedAt(S(), old(at)[Parent(u)], Slot(u)))
      decreases match u.tab case T2 => 2 case T1(_) => 1 case T0(_, _) => 0
    {
      hide Inv, Part, Cut, NoLeaves, E, Ppn;
      ghost var s0 := S();
      InvSizes(s0, u);
      PartNone(s0, u);
      var i := 0;
      while i < 512
        invariant i <= 512 && Valid() && Part(s0, S(), u, i) && u in at && at[u] == pt
        invariant forall j: nat {:trigger E(mem, pt, j)} :: E(mem, pt, j) == if j < i then 0 else E(s0.mem, pt, j)
      {
        ghost var s1 := S();
        LeavesKept(s0, s1, u, i, pt);
        var e := E(mem, pt, i);
        EntryKind(s1, u, i);
        assert !(Sv39.Valid(e) && Leaf(e));     // freewalk: leaf
        if Sv39.Valid(e) && !Leaf(e) {
          WalkStep(s1, u, i);
          Freewalk(Ppn(e), Child(u, i));
          ghost var s2 := S();
          TableStays(s0, s1, s2, u, i, pt);
          mem := SetEntry(mem, pt, i, 0);
          PartMore(s0, s1, s2, u, i, pt);
        } else {
          PartSkip(s0, s1, u, i);
        }
        i := i + 1;
      }
      EmptyTable(S(), u, s0.mem);
      ghost var s3 := S();
      if u.tab == T2 {
        RootName(s3, u);
        FreeRoot(s3, u.root);
      } else {
        FreeNode(s3, u);
        SameParent(s0, s3, u);
      }
      CutAll(s0, s3, u, pt);
      var freed := Kfree(pt);
      at := at - {u};
    }

    /** uvmfree on a process of size `sz` whose lent pages are already unmapped: every page of the tree is free. */
    method Uvmfree(r: nat, sz: uint64)
      requires Valid() && Live(S(), r) && sz <= TRAPFRAME && Sized(S(), r, PageCount(sz))
      requires Pte(S(), r, PAGES - 2) == 0 && Pte(S(), r, PAGES - 1) == 0
      modifies this
      ensures Valid() && TreeFreed(old(S()), S(), r)
    {
      hide Inv, Pte, PageCount, PgRoundUp, Unmapped, TreeFreed, NothingMapped, NoLeaves, Cut;
      ghost var s0 := S();
      RoundUps(sz, sz);
      UnmappedNone(s0, r, 0);
      if sz > 0 {
        UnmapAll(r, 0, PgRoundUp(sz) / PGSIZE, true);
      } else {
        NoPages();
      }
      ghost var s1 := S();
      AllUnmapped(s0, s1, r, PageCount(sz));
      EmptyTree(s1, r);
      LiveRoot(s1, r);
      Freewalk(r, Table(r, T2));
      CutTree(s1, S(), r);
      UnmapThenFree(s0, s1, S(), r, 0, PageCount(sz));
    }

    /** proc_freepagetable: no panic on the way, and every table and user page of the process is free. */
    method ProcFreepagetable(r: nat, sz: uint64)
      requires Valid() && Live(S(), r) && sz <= TRAPFRAME && Sized(S(), r, PageCount(sz))
      requires Pte(S(), r, PAGES - 2) != 0 && Pte(S(), r, PAGES - 1) != 0
      modifies this
      ensures Valid() && TreeFreed(old(S()), S(), r)
    {
      hide Inv, Pte, PageCount, Unmapped, TreeFreed;
      ghost var s0 := S();
      UnmapAll(r, TRAMPOLINE, 1, false);
      ghost var s1 := S();
      LentUnmapped(s0, s1, r, PAGES - 1, PageCount(sz));
      UnmapAll(r, TRAPFRAME, 1, false);
      ghost var s2 := S();
      LentUnmapped(s1, s2, r, PAGES - 2, PageCount(sz));
      Uvmfree(r, sz);
      UnmapThenFree(s1, s2, S(), r, PAGES - 2, 1);
      UnmapThenFree(s0, s1, S(), r, PAGES - 1, 1);
    }

    /** uvmcreate: an empty tree, or 0. */
    method Uvmcreate() returns (r: nat)
      requires Valid()
      modifies this
      ensures Valid() && (r == 0 <==> old(list) == []) && (r == 0 ==> S() == old(S()))
      ensures r != 0 ==> Created(old(S()), S(), r) && NothingMapped(S(), r)
      ensures r != 0 ==> list == old(list)[1..] && OnlyRoot(S(), r)
    {
      hide Inv, Created, NothingMapped, OnlyRoot;
      ghost var s0 := S();
      r := Kalloc();
      if r != 0 {
        RootMade(s0);
        RootAlone(s0);
        mem := mem[r := ZeroTable()];
        owner, at := owner[r := Table(r, T2)], at[Table(r, T2) := r];
        CreatedLive(s0, S(), r);
      }
    }

    /**
    proc_pagetable: a tree with the trampoline and the trapframe mapped and no user page; 0, with all pages
    back, if memory runs out.
    */
    method ProcPagetable(trampoline: nat, trapframe: nat) returns (r: nat)
      requires Valid() && trampoline < PHYS_PAGES && trapframe < PHYS_PAGES
      modifies this
      ensures Valid() && (r == 0 ==> Restored(old(S()), S())) && (r == 0 <==> |old(list)| < 3)
      ensures r != 0 ==> Created(old(S()), S(), r) && Sized(S(), r, 0)
                         && Pte(S(), r, TRAMPOLINE / PGSIZE) == trampoline * 1024 + PTE_R + PTE_X + PTE_V
                         && Pte(S(), r, TRAPFRAME / PGSIZE) == trapframe * 1024 + PTE_R + PTE_W + PTE_V
    {
      hide Inv, Pte, PageCount, Created, NothingMapped, Restored, TreeFreed, MappedRange, Unmapped, Leaf, UserBit;
      hide Spent, TooFew, Ways, OnlyRoot;
      ghost var s0 := S();
      r := Uvmcreate();
      if r == 0 {
        RestoredSelf(s0);
        return;
      }
      KernelPerms();
      NoPages();
      ghost var s1 := S();
      NoneSized(s1, r);
      CreatedLive(s0, s1, r);
      LentVacant(s1, r, PAGES - 1, trampoline);
      var res;
      ghost var k, k2;
      res, k := Mappages(r, TRAMPOLINE, PGSIZE, trampoline, PTE_R + PTE_X);
      ghost var s2 := S();
      LentMapped(s0, s1, s2, r, PAGES - 1, k, trampoline, PTE_R + PTE_X + PTE_V);
      if !res.Done? {
        CreateFails(s0, s1, r);
        Uvmfree(r, 0);
        CreatedUndone(s0, s2, S(), r);
        return 0;
      }
      LentVacant(s2, r, PAGES - 2, trapframe);
      res, k2 := Mappages(r, TRAPFRAME, PGSIZE, trapframe, PTE_R + PTE_W);
      ghost var s3 := S();
      LentMapped(s0, s2, s3, r, PAGES - 2, k2, trapframe, PTE_R + PTE_W + PTE_V);
      if !res.Done? {
        CreateFailsLater(s0, s1, s2, r);
        UnmapAll(r, TRAMPOLINE, 1, false);
        ghost var s4 := S();
        LentUnmapped(s3, s4, r, PAGES - 1, 0);
        Uvmfree(r, 0);
        UnmapThenFree(s3, s4, S(), r, PAGES - 1, 1);
        CreatedUndone(s0, s3, S(), r);
        return 0;
      }
      CreateCosts(s0, s1, s2, r);
    }

    /** walkaddr: the page of `va` if the user may read it, 0 otherwise. */
    method Walkaddr(r: nat, va: nat) returns (p: nat)
      requires Valid() && Live(S(), r)
      modifies this
      ensures Valid() && S() == old(S()) && Live(S(), r)
      ensures p != 0 <==> Readable(S(), r, va)
      ensures p != 0 ==> p == Ppn(Pte(S(), r, va / PGSIZE)) < |mem| && mem[p].Data? && |mem[p].bytes| == PGSIZE
    {
      hide Inv, TabOf, Grown, UserBit, Sv39.Valid, Ppn;
      if va >= MAXVA {
        return 0;
      }
      var low, found, pt, i := Walk(r, va, false);
      ZeroPte();
      if !found || !Sv39.Valid(E(mem, pt, i)) {
        NotReadable(S(), r, va);
        return 0;
      }
      if !UserBit(E(mem, pt, i)) {
        return 0;
      }
      ReadablePage(S(), r, va);
      InvLow(S());
      p := Ppn(E(mem, pt, i));
    }

    /** copyin: see CopyIn for what it returns; memory stays as it is. */
    method Copyin(r: nat, srcva: uint64, len: nat) returns (ok: bool, dst: seq<nat>)
      requires Valid() && Live(S(), r)
      modifies this
      ensures Valid() && S() == old(S()) && CopyIn(S(), r, srcva, len, ok, dst)
    {
      hide Inv, Pte, Ppn, UserBit, Readable, ByteAt;
      dst := [];
      var va: nat, left: nat := srcva, len;
      while left > 0
        invariant Valid() && S() == old(S()) && Live(S(), r) && |dst| + left == len && Bytes(S(), r, srcva, dst)
        invariant left > 0 ==> va == srcva + |dst|
      {
        var va0 := va / PGSIZE * PGSIZE;
        var p := Walkaddr(r, va0);
        PageStart(S(), r, va);
        if p == 0 {
          return false, dst;
        }
        var n := PGSIZE - (va - va0);
        if n > left {
          n := left;
        }
        ghost var d := dst;
        dst := dst + mem[p].bytes[va - va0..va - va0 + n];
        ReadMore(S(), r, srcva, d, n, dst);
        left := left - n;
        va := va0 + PGSIZE;
      }
      ok := true;
    }

    /** copyout: `src` goes to `dstva` up to the first page that may not be written, and nowhere else. */
    method Copyout(r: nat, dstva: uint64, src: seq<nat>) returns (ok: bool, ghost k: nat)
      requires Valid() && Live(S(), r)
      modifies this
      ensures Valid() && CopyOut(old(S()), S(), r, dstva, src, k) && (ok <==> k == |src|)
      ensures AllWriteable(old(S()), r, dstva, k) && (!ok ==> !Writeable(old(S()), r, dstva + k))
    {
      hide Inv, Ppn, UserBit, Readable, Writeable, Writable, ByteAt, CopyOut, TabOf;
      ghost var s0 := S();
      CopyOutNone(s0, r, dstva, src);
      k := 0;
      var va: nat, done: nat := dstva, 0;
      while done < |src|
        invariant Valid() && Live(S(), r) && done == k <= |src| && CopyOut(s0, S(), r, dstva, src, k)
        invariant (done < |src| ==> va == dstva + k) && AllWriteable(s0, r, dstva, k)
      {
        ghost var s1 := S();
        var va0 := va / PGSIZE * PGSIZE;
        StillReadable(s0, s1, r, dstva, src, k, r, va);
        PageStart(s1, r, va);
        if va0 >= MAXVA {
          TooHigh(s1, r, va);
          return false, k;
        }
        var low, found, pt, i := Walk(r, va0, false);
        MayWrite(s1, r, va, found, if found then E(mem, pt, i) else 0);
        if !found || !Sv39.Valid(E(mem, pt, i)) || !UserBit(E(mem, pt, i)) || !Writable(E(mem, pt, i)) {
          return false, k;
        }
        var p := Ppn(E(mem, pt, i));
        var n := PGSIZE - (va - va0);
        if n > |src| - done {
          n := |src| - done;
        }
        CopyOutMore(s0, s1, r, dstva, src, k, n);
        WriteableMore(s0, r, dstva, k, n);
        mem := mem[p := Data(mem[p].bytes[..va - va0] + src[done..done + n] + mem[p].bytes[va - va0 + n..])];
        CopyOutInv(s0, S(), r, dstva, src, k + n);
        k := k + n;
        done := done + n;
        va := va0 + PGSIZE;
      }
      ok := true;
    }
  }
}
