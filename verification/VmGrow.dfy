/** Growing and shrinking a process: uvmalloc, uvmdealloc and uvmcopy over the steps on single pages. */
module VmGrow {
  import opened Sv39
  import opened PageTree
  import opened PageSteps
  import opened VmFrame
  import opened VmRanges

  /** The user pages of tree `r` are the first `n`. */
  ghost predicate Sized(s: St, r: nat, n: nat)
  {
    n <= PAGES - 2 && forall w: nat {:trigger Pte(s, r, w)} | w < PAGES - 2 :: Pte(s, r, w) != 0 <==> w < n
  }

  /** The physical pages of the first `k` user pages. */
  ghost function Frames(s: St, r: nat, k: nat): set<nat>
  {
    if k == 0 then {} else Frames(s, r, k - 1) + {Ppn(Pte(s, r, k - 1))}
  }

  /** Two user pages never share a physical page. */
  lemma DistinctFrames(s: St, r: nat, v: nat, w: nat)
    requires Inv(s) && v < PAGES - 2 && w < PAGES - 2 && Pte(s, r, v) != 0 && Pte(s, r, w) != 0 && v != w
    ensures Ppn(Pte(s, r, v)) != Ppn(Pte(s, r, w))
  {
    hide Inv, Pte, TabOf, Ppn;
    LeafEntry(s, r, v);
    LeafEntry(s, r, w);
    if TabOf(v) == TabOf(w) && v % 512 == w % 512 {
      SlotsDiffer(v, w);
    }
  }

  ghost predicate IsFrame(s: St, r: nat, k: nat, p: nat)
  {
    exists w: nat :: w < k && Ppn(Pte(s, r, w)) == p
  }

  lemma {:induction false} FramesAre(s: St, r: nat, n: nat, k: nat)
    requires Inv(s) && Sized(s, r, n) && k <= n
    ensures |Frames(s, r, k)| == k
    ensures forall p | p in Frames(s, r, k) :: p < |s.mem| == |s.owner| && IsFrame(s, r, k, p)
  {
    hide Inv, Pte, TabOf, Ppn, IsFrame;
    if k > 0 {
      FramesAre(s, r, n, k - 1);
      LeafEntry(s, r, k - 1);
      InvMem(s);
      var p := Ppn(Pte(s, r, k - 1));
      NewFrame(s, r, n, k - 1);
      forall q | q in Frames(s, r, k)
        ensures q < |s.mem| && IsFrame(s, r, k, q)
      {
        FrameStays(s, r, k - 1, q);
      }
    }
  }

  lemma NewFrame(s: St, r: nat, n: nat, k: nat)
    requires Inv(s) && Sized(s, r, n) && k < n
    ensures !IsFrame(s, r, k, Ppn(Pte(s, r, k)))
  {
    hide Inv, Pte, Ppn;
    forall w: nat | w < k
      ensures Ppn(Pte(s, r, w)) != Ppn(Pte(s, r, k))
    {
      DistinctFrames(s, r, w, k);
    }
  }

  lemma FrameStays(s: St, r: nat, k: nat, q: nat)
    ensures IsFrame(s, r, k + 1, q) <==> IsFrame(s, r, k, q) || q == Ppn(Pte(s, r, k))
  {
    hide Pte, Ppn;
  }

  lemma InvMem(s: St)
    requires Inv(s)
    ensures |s.mem| == |s.owner| == PHYS_PAGES
  {
  }

  lemma {:induction false} Below(n: nat, a: set<nat>)
    requires forall p | p in a :: p < n
    ensures |a| <= n
  {
    if n == 0 {
      assert a == {};
    } else {
      Below(n - 1, a - {n - 1});
    }
  }

  /** No process has more user pages than there are physical ones, so its size stays far below TRAPFRAME. */
  lemma SizeBounded(s: St, r: nat, n: nat)
    requires Inv(s) && Sized(s, r, n)
    ensures n <= PHYS_PAGES < PAGES - 2
  {
    hide Inv, Pte;
    FramesAre(s, r, n, n);
    InvMem(s);
    Below(PHYS_PAGES, Frames(s, r, n));
  }

  // ---- new user pages ----

  /** Page `p` before and after: a free page may have become a table of `r`, or one of its user pages [v, v+n). */
  predicate ExtendedPage(u: Use, m: Page, u': Use, m': Page, r: nat, v: nat, n: nat)
  {
    if u' == u then u.Free? || (u.Table? && u.root == r) || m' == m
    else u.Free? && ((u'.Table? && u'.root == r && u'.tab != T2) || InRange(u', r, v, n))
  }

  /** Tree `r` has new user pages at [v, v+n), taken from the free list; everything else is as it was. */
  ghost predicate Extended(s: St, s': St, r: nat, v: nat, n: nat)
  {
    && Inv(s') && s'.lo == s.lo && |s'.mem| == |s.mem| == |s.owner| == |s'.owner|
    && (forall p: nat {:trigger s.owner[p]} {:trigger s'.owner[p]} | p < |s.owner| ::
          ExtendedPage(s.owner[p], s.mem[p], s'.owner[p], s'.mem[p], r, v, n))
    && (forall r': nat, w: nat {:trigger Pte(s', r', w)} ::
          if r' == r && v <= w < v + n then Pte(s', r', w) != 0 else Pte(s', r', w) == Pte(s, r', w))
  }

  lemma ExtendedNone(s: St, r: nat, v: nat)
    requires Inv(s)
    ensures Extended(s, s, r, v, 0)
  {
    hide Pte, Valid, Leaf, UserBit, Lent, Ppn, Kind, Vpn;
  }

  lemma ExtendedKeeps(s: St, s': St, r: nat, v: nat, n: nat)
    requires Extended(s, s', r, v, n)
    ensures Keeps(s, s', r) && (Live(s, r) ==> Live(s', r))
  {
    hide Inv, Pte, Vpn;
  }

  /** kalloc, then contents `m`. */
  function Taking(s: St, m: Page): St
    requires s.list != [] && s.list[0] < |s.mem| == |s.owner|
  {
    var s1 := Alloc(s);
    s1.(mem := s1.mem[s.list[0] := m])
  }

  lemma TakingKeeps(s: St, m: Page)
    requires Inv(s) && s.list != [] && m.Data? && |m.bytes| == PGSIZE
    ensures s.lo <= s.list[0] < |s.mem| == |s.owner| && s.owner[s.list[0]] == Free
    ensures Inv(Taking(s, m)) && (forall r: nat, v: nat :: Pte(Taking(s, m), r, v) == Pte(s, r, v))
    ensures forall v: nat :: Mappable(Taking(s, m), v, s.list[0])
  {
    hide Pte, Kind, Down, Up, Known, Filled, Chain;
    AllocKeeps(s);
    var s1, s2 := Alloc(s), Taking(s, m);
    SameTreesKeep(s1, s2);
    ListedKept(s.lo, s1.mem, s2.mem, s1.list, s1.owner, s2.owner);
  }

  /** One more page. */
  lemma ExtendedMore(s: St, s1: St, s2: St, r: nat, v: nat, n: nat, m: Page, e: nat)
    requires Inv(s1) && Extended(s, s1, r, v, n) && v + n < PAGES - 2 && m.Data? && |m.bytes| == PGSIZE && e != 0
    requires s1.list != [] && s1.list[0] < |s1.mem| == |s1.owner|
             && MappedPage(Taking(s1, m), s2, r, v + n, s1.list[0], e)
    ensures Extended(s, s2, r, v, n + 1) && s2.mem[s1.list[0]] == m
  {
    hide Inv, Pte, Vpn, TabOf, Filled, InRange;
    TakingKeeps(s1, m);
    NewInRange(r, v, n);
    WiderRange(r, v, n);
    var q, st := s1.list[0], Taking(s1, m);
    forall p: nat | p < |s.owner|
      ensures ExtendedPage(s.owner[p], s.mem[p], s2.owner[p], s2.mem[p], r, v, n + 1)
    {
      assert ExtendedPage(s.owner[p], s.mem[p], s1.owner[p], s1.mem[p], r, v, n);
      if p != q {
        assert GrownPage(st.owner[p], st.mem[p], s2.owner[p], s2.mem[p], r);
      }
    }
    forall r': nat, w: nat
      ensures if r' == r && v <= w < v + n + 1 then Pte(s2, r', w) != 0 else Pte(s2, r', w) == Pte(s, r', w)
    {
      assert Pte(s2, r', w) == if r' == r && w == v + n then e else Pte(st, r', w);
      assert Pte(st, r', w) == Pte(s1, r', w);
    }
  }

  lemma WiderRange(r: nat, v: nat, n: nat)
    ensures forall u :: InRange(u, r, v, n) ==> InRange(u, r, v, n + 1)
  {
    hide Vpn;
  }

  lemma NewInRange(r: nat, v: nat, n: nat)
    ensures InRange(User(r, TabOf(v + n), (v + n) % 512), r, v, n + 1)
  {
    VpnSplit(v + n);
  }

  /** A page that was already there keeps its translation and its contents. */
  lemma ExtendedHolds(s: St, s': St, r: nat, v: nat, n: nat, w: nat)
    requires Inv(s) && Extended(s, s', r, v, n) && w < PAGES - 2 && !(v <= w < v + n) && Pte(s, r, w) != 0
    ensures Pte(s', r, w) == Pte(s, r, w)
    ensures Ppn(Pte(s, r, w)) < |s.mem| && s'.mem[Ppn(Pte(s, r, w))] == s.mem[Ppn(Pte(s, r, w))]
  {
    hide Inv, Pte, Vpn, TabOf, Ppn;
    LeafEntry(s, r, w);
    var p := Ppn(Pte(s, r, w));
    assert ExtendedPage(s.owner[p], s.mem[p], s'.owner[p], s'.mem[p], r, v, n);
  }

  /** mappages fails: the page goes back. */
  lemma ExtendedFails(s: St, s1: St, s2: St, r: nat, v: nat, n: nat, m: Page)
    requires Inv(s1) && Extended(s, s1, r, v, n) && m.Data? && |m.bytes| == PGSIZE
    requires s1.list != [] && s1.list[0] < |s1.mem| == |s1.owner| && Grown(Taking(s1, m), s2, r)
    ensures s2.lo <= s1.list[0] < |s2.mem| == |s2.owner| && Extended(s, Release(s2, s1.list[0]), r, v, n)
  {
    hide Inv, Pte, Vpn, TabOf, Filled, InRange;
    TakingKeeps(s1, m);
    var q, st := s1.list[0], Taking(s1, m);
    assert GrownPage(st.owner[q], st.mem[q], s2.owner[q], s2.mem[q], r);
    ReleaseKeeps(s2, q);
    var s3 := Release(s2, q);
    forall p: nat | p < |s.owner|
      ensures ExtendedPage(s.owner[p], s.mem[p], s3.owner[p], s3.mem[p], r, v, n)
    {
      assert ExtendedPage(s.owner[p], s.mem[p], s1.owner[p], s1.mem[p], r, v, n);
      assert GrownPage(st.owner[p], st.mem[p], s2.owner[p], s2.mem[p], r);
    }
    forall r': nat, w: nat
      ensures if r' == r && v <= w < v + n then Pte(s3, r', w) != 0 else Pte(s3, r', w) == Pte(s, r', w)
    {
      assert Pte(s3, r', w) == Pte(s2, r', w);
      assert Pte(s2, r', w) == Pte(st, r', w);
      assert Pte(st, r', w) == Pte(s1, r', w);
    }
  }

  /** Unmapping all the new pages again leaves the translations of before, and at most some more tables. */
  lemma ExtendedUndone(s: St, s1: St, s2: St, r: nat, v: nat, n: nat)
    requires Inv(s) && Extended(s, s1, r, v, n) && Unmapped(s1, s2, r, v, n) && v + n <= PAGES - 2
    requires forall w: nat | v <= w < v + n :: Pte(s, r, w) == 0
    ensures Grown(s, s2, r)
  {
    hide Inv, Pte, Vpn, TabOf;
    forall p: nat | p < |s.owner|
      ensures GrownPage(s.owner[p], s.mem[p], s2.owner[p], s2.mem[p], r)
    {
      assert ExtendedPage(s.owner[p], s.mem[p], s1.owner[p], s1.mem[p], r, v, n);
      assert UnmappedPage(s1.owner[p], s1.mem[p], s2.owner[p], s2.mem[p], r, v, n);
      if InRange(s.owner[p], r, v, n) {
        var u := s.owner[p];
        UserMapped(s, r, Vpn(u.tab.i2, u.tab.i1, u.i), p);
      }
    }
    forall r': nat, w: nat
      ensures Pte(s2, r', w) == Pte(s, r', w)
    {
      assert Pte(s2, r', w) == if r' == r && v <= w < v + n then 0 else Pte(s1, r', w);
    }
  }

  /** mappages of a single page. */
  lemma OnePage(s: St, s': St, r: nat, v: nat, k: nat, p: nat, f: nat)
    requires MappedRange(s, s', r, v, k, p, f) && k <= 1
    ensures k == 1 ==> MappedPage(s, s', r, v, p, p * 1024 + f)
    ensures k == 0 ==> Grown(s, s', r)
  {
    hide Inv, Pte, TabOf;
    if k == 1 && v < PAGES - 2 {
      assert Taken(s, s', r, v, p, p);
    }
  }

  /** User page `w` has flags `f` and contents `m`. */
  predicate Holds(s: St, r: nat, w: nat, f: nat, m: Page)
  {
    Pte(s, r, w) != 0 && Flags(Pte(s, r, w)) == f && Ppn(Pte(s, r, w)) < |s.mem| && s.mem[Ppn(Pte(s, r, w))] == m
  }

  lemma NewHolds(s: St, r: nat, w: nat, q: nat, f: nat)
    requires Pte(s, r, w) == q * 1024 + f && 0 < f < 1024 && q < |s.mem|
    ensures Holds(s, r, w, f, s.mem[q])
  {
    hide Pte;
    MakePte(q, f);
  }

  /** Taking one more page does not disturb the others. */
  lemma HoldsKept(s1: St, s2: St, r: nat, v: nat, m: Page, e: nat, w: nat, f: nat, m': Page)
    requires Inv(s1) && s1.list != [] && m.Data? && |m.bytes| == PGSIZE && e != 0
    requires s1.list[0] < |s1.mem| == |s1.owner| && MappedPage(Taking(s1, m), s2, r, v, s1.list[0], e)
    requires w < PAGES - 2 && v < PAGES - 2 && w != v && Holds(s1, r, w, f, m')
    ensures Holds(s2, r, w, f, m')
  {
    hide Inv, Pte, Vpn, TabOf, Filled, InRange, Ppn, Flags;
    ExtendedNone(s1, r, v);
    ExtendedMore(s1, s1, s2, r, v, 0, m, e);
    ExtendedHolds(s1, s2, r, v, 1, w);
  }

  /** Tree `r` has grown by zeroed pages. */
  ghost predicate Blank(s: St, r: nat, v: nat, n: nat, f: nat)
  {
    forall w: nat {:trigger Holds(s, r, w, f, Filled(0))} | v <= w < v + n :: Holds(s, r, w, f, Filled(0))
  }

  lemma NoneBlank(s: St, r: nat, v: nat, f: nat)
    ensures Blank(s, r, v, 0, f)
  {
  }

  lemma BlankMore(s1: St, s2: St, r: nat, v: nat, n: nat, f: nat, e: nat)
    requires Inv(s1) && Blank(s1, r, v, n, f) && v + n < PAGES - 2 && s1.list != [] && 0 < f < 1024
    requires s1.list[0] < |s1.mem| == |s1.owner| && e == s1.list[0] * 1024 + f
    requires MappedPage(Taking(s1, Filled(0)), s2, r, v + n, s1.list[0], e) && s2.mem[s1.list[0]] == Filled(0)
    ensures Blank(s2, r, v, n + 1, f)
  {
    hide Inv, Pte, Vpn, TabOf, Holds;
    forall w: nat | v <= w < v + n + 1
      ensures Holds(s2, r, w, f, Filled(0))
    {
      if w < v + n {
        HoldsKept(s1, s2, r, v + n, Filled(0), e, w, f, Filled(0));
      } else {
        NewHolds(s2, r, w, s1.list[0], f);
      }
    }
  }

  lemma SizedGrows(s: St, s': St, r: nat, v: nat, n: nat)
    requires Sized(s, r, v) && Extended(s, s', r, v, n) && v + n <= PAGES - 2
    ensures Sized(s', r, v + n)
  {
    hide Inv, Pte;
  }

  lemma SizedShrinks(s: St, s': St, r: nat, v: nat, n: nat)
    requires Sized(s, r, v + n) && Unmapped(s, s', r, v, n)
    ensures Sized(s', r, v)
  {
    hide Inv, Pte;
  }

  lemma VacantOne(s: St, r: nat, v: nat, q: nat)
    requires Pte(s, r, v) == 0 && Mappable(s, v, q)
    ensures Pte(s, r, v) == 0 && forall w: nat | v <= w < v + 1 :: MayTake(s, v, q, w)
  {
    hide Pte;
  }

  /** A page nobody uses is still that after the walk, and can be given back. */
  lemma PageBack(s: St, s': St, r: nat, q: nat)
    requires Grown(s, s', r) && s.lo <= q < |s.mem| && s.owner[q] == Other && Live(s', r)
    ensures s'.lo <= q < |s'.mem| == |s'.owner| && Inv(Release(s', q)) && Live(Release(s', q), r)
  {
    hide Inv, Pte;
    assert GrownPage(s.owner[q], s.mem[q], s'.owner[q], s'.mem[q], r);
    ReleaseKeeps(s', q);
  }

  lemma NextUnmapped(s: St, r: nat, n: nat)
    requires Sized(s, r, n) && n < PAGES - 2
    ensures Pte(s, r, n) == 0
  {
    hide Pte;
  }

  // ---- copying a process ----

  /** Page `w` of tree `r` in `s0`: its flags and contents are those of page `w` of tree `c` in `s`. */
  ghost predicate SamePage(s0: St, r: nat, s: St, c: nat, w: nat)
  {
    Ppn(Pte(s0, r, w)) < |s0.mem| && Holds(s, c, w, Flags(Pte(s0, r, w)), s0.mem[Ppn(Pte(s0, r, w))])
  }

  ghost predicate CopiedPages(s0: St, r: nat, s: St, c: nat, n: nat)
  {
    forall w: nat | w < n :: SamePage(s0, r, s, c, w)
  }

  lemma NoneCopied(s0: St, r: nat, s: St, c: nat)
    ensures CopiedPages(s0, r, s, c, 0)
  {
  }

  /** While tree `c` grows, the pages of tree `r` stay. */
  lemma ParentKept(s: St, s': St, c: nat, n: nat, r: nat, w: nat)
    requires Inv(s) && Extended(s, s', c, 0, n) && r != c && w < PAGES - 2 && Pte(s, r, w) != 0
    ensures Pte(s', r, w) == Pte(s, r, w) && Ppn(Pte(s, r, w)) < |s.mem| == |s'.mem| && s.mem[Ppn(Pte(s, r, w))].Data?
    ensures |s.mem[Ppn(Pte(s, r, w))].bytes| == PGSIZE && s'.mem[Ppn(Pte(s, r, w))] == s.mem[Ppn(Pte(s, r, w))]
  {
    hide Inv, Pte, Vpn, TabOf, Ppn;
    LeafEntry(s, r, w);
    var p := Ppn(Pte(s, r, w));
    assert ExtendedPage(s.owner[p], s.mem[p], s'.owner[p], s'.mem[p], c, 0, n);
  }

  lemma CopiedMore(s0: St, r: nat, s1: St, s2: St, c: nat, n: nat)
    requires Inv(s1) && CopiedPages(s0, r, s1, c, n) && n < PAGES - 2 && s1.list != []
             && s1.list[0] < |s1.mem| == |s1.owner|
    requires Ppn(Pte(s0, r, n)) < |s0.mem| && s0.mem[Ppn(Pte(s0, r, n))].Data?
             && |s0.mem[Ppn(Pte(s0, r, n))].bytes| == PGSIZE
    requires var m, f := s0.mem[Ppn(Pte(s0, r, n))], Flags(Pte(s0, r, n));
             f > 0 && MappedPage(Taking(s1, m), s2, c, n, s1.list[0], s1.list[0] * 1024 + f) && s2.mem[s1.list[0]] == m
    ensures CopiedPages(s0, r, s2, c, n + 1)
  {
    hide Inv, Pte, Vpn, TabOf, Holds, Ppn;
    var m, f := s0.mem[Ppn(Pte(s0, r, n))], Flags(Pte(s0, r, n));
    forall w: nat | w < n + 1
      ensures SamePage(s0, r, s2, c, w)
    {
      if w < n {
        assert SamePage(s0, r, s1, c, w);
        HoldsKept(s1, s2, c, n, m, s1.list[0] * 1024 + f, w, Flags(Pte(s0, r, w)), s0.mem[Ppn(Pte(s0, r, w))]);
      } else {
        assert Pte(s2, c, n) == s1.list[0] * 1024 + f;
        NewHolds(s2, c, n, s1.list[0], f);
      }
    }
  }

  /** The flags of a leaf entry can be used as they are. */
  lemma FlagsReused(s: St, r: nat, w: nat)
    requires Inv(s) && w < PAGES && Pte(s, r, w) != 0
    ensures var f := Flags(Pte(s, r, w)); 0 < f < 1024 && WithV(f) == f && Leaf(f) && Valid(Pte(s, r, w))
  {
    hide Inv, Pte, TabOf, Ppn;
    LeafEntry(s, r, w);
  }

  lemma ParentMapped(s: St, r: nat, n: nat, w: nat)
    requires Sized(s, r, n) && w < n
    ensures w < PAGES - 2 && Pte(s, r, w) != 0
  {
    hide Pte;
  }

  lemma TablesThere(s: St, r: nat, v: nat)
    requires Pte(s, r, v) != 0
    ensures Table(r, TabOf(v)) in s.at && E(s.mem, s.at[Table(r, TabOf(v))], v % 512) == Pte(s, r, v)
  {
    hide TabOf;
  }

  lemma ParentLives(s: St, s': St, c: nat, v: nat, n: nat, r: nat)
    requires Extended(s, s', c, v, n) && Live(s, r)
    ensures Live(s', r)
  {
    hide Inv, Pte, Vpn;
    assert ExtendedPage(s.owner[r], s.mem[r], s'.owner[r], s'.mem[r], c, v, n);
  }

  lemma UndoReady(s: St, s': St, c: nat, k: nat)
    requires Sized(s, c, 0) && Extended(s, s', c, 0, k) && k <= PAGES - 2
    ensures forall w: nat | 0 <= w < k :: Pte(s', c, w) != 0 && Pte(s, c, w) == 0
  {
    hide Inv, Pte;
  }

  lemma NoPages()
    ensures PageCount(0) == 0
  {
  }

  /** In a process of `n` pages a page below the lent ones is mapped exactly if it is one of them. */
  lemma OnlyMappedReached(s: St, r: nat, n: nat, v: nat, g: nat)
    requires Sized(s, r, n) && n < PAGES - 2 && !(PAGES - 2 <= v < PAGES)
    ensures forall w: nat | v <= w < v + g && MappedTo(s, r, v, w) :: w < PAGES - 2
    ensures (forall w: nat | v <= w < v + g :: IsMapped(s, r, w)) <==> g == 0 || v + g <= n
  {
    hide Pte;
    var x := if v < n then n else v;
    assert !IsMapped(s, r, x);
  }
}
