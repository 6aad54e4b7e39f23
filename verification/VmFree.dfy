/** Giving back the tables of a tree (freewalk), and with them the tree. */
module VmFree {
  import opened Sv39
  import opened PageTree
  import opened PageSteps
  import opened VmFrame
  import opened VmRanges
  import opened VmGrow

  /** A table below `u`, reached through one of its first `n` slots. */
  predicate Gone(w: Use, u: Use, n: nat)
    requires u.Table?
  {
    w.Table? && w.root == u.root
    && match u.tab
       case T2 => (w.tab.T1? && w.tab.i2 < n) || (w.tab.T0? && w.tab.i2 < n)
       case T1(a) => w.tab.T0? && w.tab.i2 == a && w.tab.i1 < n
       case T0(_, _) => false
  }

  predicate AtOrBelow(w: Use, u: Use)
    requires u.Table?
  {
    w == u || Gone(w, u, 512)
  }

  /** What hangs off slot `n` of `u` is what is at or below its child there. */
  lemma GoneNext(w: Use, u: Use, n: nat)
    requires u.Table? && !u.tab.T0? && n < 512 && (w.Table? ==> TabOk(w.tab))
    ensures Child(u, n).Table? && (Gone(w, u, n + 1) <==> Gone(w, u, n) || AtOrBelow(w, Child(u, n)))
    ensures AtOrBelow(w, Child(u, n)) ==> w != u && Gone(w, u, 512) && !Gone(w, u, n)
  {
  }

  /** No user page or lent page is mapped at or below `u`. */
  ghost predicate NoLeaves(mem: seq<Page>, owner: seq<Use>, u: Use)
    requires u.Table?
  {
    forall p: nat, j: nat {:trigger E(mem, p, j)} | p < |owner| && owner[p].Table? && owner[p].tab.T0?
        && AtOrBelow(owner[p], u) :: E(mem, p, j) == 0
  }

  predicate PartPage(w: Use, m: Page, w': Use, m': Page, u: Use, n: nat)
    requires u.Table?
  {
    if Gone(w, u, n) then w' == Free else w' == w && (w.Free? || w == u || m' == m)
  }

  predicate CutPage(w: Use, m: Page, w': Use, m': Page, u: Use)
    requires u.Table?
  {
    if AtOrBelow(w, u) then w' == Free else w' == w && (w.Free? || m' == m)
  }

  /** freewalk's loop after `n` entries: what hung off them is free. */
  ghost predicate Part(s: St, s': St, u: Use, n: nat)
    requires u.Table?
  {
    && s'.lo == s.lo && |s'.mem| == |s.mem| == |s.owner| == |s'.owner|
    && forall p: nat {:trigger s.owner[p]} {:trigger s'.owner[p]} | p < |s.owner| ::
         PartPage(s.owner[p], s.mem[p], s'.owner[p], s'.mem[p], u, n)
  }

  /** freewalk's result: the table `u` and all below it are free. */
  ghost predicate Cut(s: St, s': St, u: Use)
    requires u.Table?
  {
    && s'.lo == s.lo && |s'.mem| == |s.mem| == |s.owner| == |s'.owner|
    && forall p: nat {:trigger s.owner[p]} {:trigger s'.owner[p]} | p < |s.owner| ::
         CutPage(s.owner[p], s.mem[p], s'.owner[p], s'.mem[p], u)
  }

  /** The state once entry `i` of page `p`, which refers to a freed table, is cleared too. */
  function ClearedAt(s: St, p: nat, i: nat): St
  {
    if p < |s.mem| && s.mem[p].Entries? && i < |s.mem[p].pte| then s.(mem := SetEntry(s.mem, p, i, 0)) else s
  }

  lemma PartNone(s: St, u: Use)
    requires u.Table? && |s.mem| == |s.owner|
    ensures Part(s, s, u, 0)
  {
  }

  /** One round of the loop with a table behind the entry. */
  lemma PartMore(s: St, s1: St, s2: St, u: Use, n: nat, pt: nat)
    requires Inv(s) && u.Table? && !u.tab.T0? && n < 512 && Part(s, s1, u, n) && Cut(s1, s2, Child(u, n))
    requires pt < |s.owner| && s.owner[pt] == u && u in s.at
    ensures Part(s, ClearedAt(s2, pt, n), u, n + 1)
  {
    hide Valid, Leaf, UserBit, Lent, Ppn, Down, Up, Listed;
    var s3 := ClearedAt(s2, pt, n);
    forall p: nat | p < |s.owner|
      ensures PartPage(s.owner[p], s.mem[p], s3.owner[p], s3.mem[p], u, n + 1)
    {
      assert PartPage(s.owner[p], s.mem[p], s1.owner[p], s1.mem[p], u, n);
      assert CutPage(s1.owner[p], s1.mem[p], s2.owner[p], s2.mem[p], Child(u, n));
      assert Kind(s.lo, s.owner[p], s.mem[p], p);
      GoneNext(s.owner[p], u, n);
    }
  }

  lemma TabOkOf(s: St, p: nat)
    requires Inv(s) && p < |s.owner| && s.owner[p].Table?
    ensures TabOk(s.owner[p].tab)
  {
    hide Valid, Leaf, UserBit, Lent, Ppn, Down, Up, Listed, Known;
    assert Kind(s.lo, s.owner[p], s.mem[p], p);
  }

  /** One round with an empty entry: there is nothing behind it. */
  lemma PartSkip(s: St, s1: St, u: Use, n: nat)
    requires Inv(s) && Inv(s1) && u.Table? && n < 512 && Part(s, s1, u, n) && u in s1.at && E(s1.mem, s1.at[u], n) == 0
    ensures Part(s, s1, u, n + 1)
  {
    hide Inv, E;
    forall p: nat | p < |s.owner|
      ensures PartPage(s.owner[p], s.mem[p], s1.owner[p], s1.mem[p], u, n + 1)
    {
      assert PartPage(s.owner[p], s.mem[p], s1.owner[p], s1.mem[p], u, n);
      if !u.tab.T0? {
        if s.owner[p].Table? {
          TabOkOf(s, p);
        }
        GoneNext(s.owner[p], u, n);
        NothingBehind(s1, u, n, p);
      }
    }
  }

  lemma NothingBehind(s: St, u: Use, n: nat, p: nat)
    requires Inv(s) && u.Table? && !u.tab.T0? && n < 512 && u in s.at && E(s.mem, s.at[u], n) == 0 && p < |s.owner|
    ensures Child(u, n).Table? && !AtOrBelow(s.owner[p], Child(u, n))
  {
    hide Valid, Leaf, UserBit, Lent, Ppn, Listed, Down;
    SlotEmpty(s, u, n);
    var w := s.owner[p];
    assert Linked(w) ==> Held(s.mem, s.at, w, p);
  }

  /** Nothing is mapped below during the loop either, nor below one of the tables behind the entries. */
  lemma LeavesKept(s: St, s1: St, u: Use, n: nat, pt: nat)
    requires Inv(s) && u.Table? && u in s.at && s.at[u] == pt && Part(s, s1, u, n) && NoLeaves(s.mem, s.owner, u)
    requires forall j: nat {:trigger E(s1.mem, pt, j)} :: E(s1.mem, pt, j) == 0 || E(s1.mem, pt, j) == E(s.mem, pt, j)
    ensures NoLeaves(s1.mem, s1.owner, u)
    ensures !u.tab.T0? && n < 512 ==> NoLeaves(s1.mem, s1.owner, Child(u, n))
  {
    hide Valid, Leaf, UserBit, Lent, Ppn, Down, Up, Listed, Kind;
    forall p: nat, j: nat | p < |s1.owner| && s1.owner[p].Table? && s1.owner[p].tab.T0? && AtOrBelow(s1.owner[p], u)
      ensures E(s1.mem, p, j) == 0
    {
      assert PartPage(s.owner[p], s.mem[p], s1.owner[p], s1.mem[p], u, n);
      assert E(s.mem, p, j) == 0;
    }
    assert !u.tab.T0? && n < 512 ==> forall w :: AtOrBelow(w, Child(u, n)) ==> AtOrBelow(w, u);
  }

  /** The page of `u` freed: kfree done, the entry that refers to it still in place. */
  function Unhooked(s: St, u: Use, pt: nat): St
    requires pt < |s.mem| == |s.owner|
  {
    Release(s, pt).(at := s.at - {u})
  }

  /** At the end of the loop the table is empty and can go. */
  lemma FreeNode(s: St, u: Use)
    requires Inv(s) && u.Table? && u in s.at && u.tab != T2 && forall j: nat :: E(s.mem, s.at[u], j) == 0
    ensures s.lo <= s.at[u] < |s.mem| == |s.owner| && Parent(u) in s.at
    ensures Inv(ClearedAt(Unhooked(s, u, s.at[u]), s.at[Parent(u)], Slot(u)))
  {
    hide Valid, Leaf, UserBit, Lent, Ppn, Down, Listed;
    var pt, w, i := s.at[u], Parent(u), Slot(u);
    assert Held(s.mem, s.at, u, pt);
    assert Kind(s.lo, u, s.mem[pt], pt);
    assert CanDrop(s, w, i);
    DropKeeps(s, w, i);
    ReleaseKeeps(Drop(s, w, i), pt);
    OrderIsIrrelevant(s, w, i, pt, SetEntry(Release(s, pt).mem, s.at[w], i, 0), Release(s, pt).list,
                      Release(s, pt).owner);
  }

  lemma FreeRoot(s: St, r: nat)
    requires Inv(s) && Live(s, r) && forall j: nat :: E(s.mem, r, j) == 0
    ensures s.lo <= r < |s.mem| == |s.owner| && Inv(Unhooked(s, Table(r, T2), r))
  {
    hide Valid, Leaf, UserBit, Lent, Ppn, Down, Listed, Kind, Known, Up;
    DropRootKeeps(s, r);
    ReleaseKeeps(DropRoot(s, r), r);
    assert Unhooked(s, Table(r, T2), r).owner == Release(DropRoot(s, r), r).owner;
  }

  lemma CutAll(s: St, s1: St, u: Use, pt: nat)
    requires Inv(s) && u.Table? && u in s.at && s.at[u] == pt && Part(s, s1, u, 512) && pt < |s1.mem| == |s1.owner|
    ensures Cut(s, Unhooked(s1, u, pt), u)
  {
    hide Valid, Leaf, UserBit, Lent, Ppn, Down, Up, Listed, Kind;
    var s2 := Unhooked(s1, u, pt);
    forall p: nat | p < |s.owner|
      ensures CutPage(s.owner[p], s.mem[p], s2.owner[p], s2.mem[p], u)
    {
      assert PartPage(s.owner[p], s.mem[p], s1.owner[p], s1.mem[p], u, 512);
    }
  }

  /** An entry is zero, or leads to a table below. */
  lemma EntryKind(s: St, u: Use, i: nat)
    requires Inv(s) && u.Table? && u in s.at && i < 512 && NoLeaves(s.mem, s.owner, u)
    ensures var e := E(s.mem, s.at[u], i); e != 0 ==> !u.tab.T0? && Valid(e) && !Leaf(e)
    ensures !Valid(0)
  {
    hide Valid, Leaf, UserBit, Lent, Ppn, Up, Listed, Kind;
    ZeroPte();
    var e := E(s.mem, s.at[u], i);
    if e != 0 {
      assert Good(s.owner, u, i, e);
    }
  }

  /** While the tables behind entry `i` go, the table itself stays. */
  lemma TableStays(s: St, s1: St, s2: St, u: Use, i: nat, pt: nat)
    requires Inv(s1) && u.Table? && !u.tab.T0? && i < 512 && u in s1.at && s1.at[u] == pt && Cut(s1, s2, Child(u, i))
    requires Inv(ClearedAt(s2, pt, i))
    requires forall j: nat {:trigger E(s1.mem, pt, j)} :: E(s1.mem, pt, j) == if j < i then 0 else E(s.mem, pt, j)
    ensures pt < |s2.mem| && s2.mem[pt].Entries? && |s2.mem[pt].pte| == 512 && u in s2.at && s2.at[u] == pt
    ensures forall j: nat {:trigger E(SetEntry(s2.mem, pt, i, 0), pt, j)} ::
              E(SetEntry(s2.mem, pt, i, 0), pt, j) == if j < i + 1 then 0 else E(s.mem, pt, j)
  {
    hide Valid, Leaf, UserBit, Lent, Ppn, Up, Listed, Down;
    assert CutPage(s1.owner[pt], s1.mem[pt], s2.owner[pt], s2.mem[pt], Child(u, i));
    assert Kind(s1.lo, u, s1.mem[pt], pt);
    forall j: nat
      ensures E(SetEntry(s2.mem, pt, i, 0), pt, j) == if j < i + 1 then 0 else E(s.mem, pt, j)
    {
      assert E(s1.mem, pt, j) == if j < i then 0 else E(s.mem, pt, j);
    }
  }

  lemma EmptyTable(s: St, u: Use, mem0: seq<Page>)
    requires Inv(s) && u.Table? && u in s.at
    requires forall j: nat {:trigger E(s.mem, s.at[u], j)} ::
               E(s.mem, s.at[u], j) == if j < 512 then 0 else E(mem0, s.at[u], j)
    ensures forall j: nat :: E(s.mem, s.at[u], j) == 0
  {
    hide Valid, Leaf, UserBit, Lent, Ppn, Up, Listed, Down;
    assert Kind(s.lo, u, s.mem[s.at[u]], s.at[u]);
  }

  lemma RootName(s: St, u: Use)
    requires Inv(s) && u.Table? && u.tab == T2 && u in s.at
    ensures Live(s, u.root) && s.at[u] == u.root
  {
    hide Valid, Leaf, UserBit, Lent, Ppn, Up, Listed, Down;
    assert Kind(s.lo, u, s.mem[s.at[u]], s.at[u]);
  }

  lemma SameParent(s: St, s1: St, u: Use)
    requires Inv(s) && Inv(s1) && u.Table? && u.tab != T2 && u in s.at && Part(s, s1, u, 512)
    ensures Parent(u) in s.at && Parent(u) in s1.at && s.at[Parent(u)] == s1.at[Parent(u)]
  {
    hide Valid, Leaf, UserBit, Lent, Ppn, Listed, Down, Kind, E;
    assert Held(s.mem, s.at, u, s.at[u]);
    var p := s.at[Parent(u)];
    assert PartPage(s.owner[p], s.mem[p], s1.owner[p], s1.mem[p], u, 512);
  }

  // ---- the whole tree ----

  /** All tables and user pages of tree `r` are free, everything else is as it was. */
  ghost predicate TreeFreed(s: St, s': St, r: nat)
  {
    && Inv(s') && s'.lo == s.lo && |s'.mem| == |s.mem| == |s.owner| == |s'.owner|
    && forall p: nat {:trigger s.owner[p]} {:trigger s'.owner[p]} | p < |s.owner| ::
         FreedPage(s.owner[p], s.mem[p], s'.owner[p], s'.mem[p], r)
  }

  predicate FreedPage(w: Use, m: Page, w': Use, m': Page, r: nat)
  {
    if OfTree(w, r) then w' == Free else w' == w && (w.Free? || m' == m)
  }

  ghost predicate NothingMapped(s: St, r: nat)
  {
    forall v: nat {:trigger Pte(s, r, v)} | v < PAGES :: Pte(s, r, v) == 0
  }

  /** No virtual page is mapped, so no entry of a leaf table is set. */
  lemma EmptyTree(s: St, r: nat)
    requires Inv(s) && NothingMapped(s, r)
    ensures NoLeaves(s.mem, s.owner, Table(r, T2))
  {
    hide Valid, Leaf, UserBit, Lent, Ppn, Listed, Pte;
    forall p: nat, j: nat | p < |s.owner| && s.owner[p].Table? && s.owner[p].tab.T0?
        && AtOrBelow(s.owner[p], Table(r, T2))
      ensures E(s.mem, p, j) == 0
    {
      var w := s.owner[p];
      assert Kind(s.lo, w, s.mem[p], p);
      if j < 512 {
        HighTables(s, w, p);
        PteOf(s, w, p, j);
      }
    }
  }

  /** Leaf tables hang from the lower half of the root. */
  lemma HighTables(s: St, w: Use, p: nat)
    requires Inv(s) && p < |s.owner| && s.owner[p] == w && w.Table? && w.tab.T0?
    ensures w.tab.i2 < 256
  {
    hide Valid, Leaf, UserBit, Lent, Ppn, Listed, Kind;
    TabOkOf(s, p);
    assert Held(s.mem, s.at, w, p);
    var w1 := Parent(w);
    assert Held(s.mem, s.at, w1, s.at[w1]);
    var w2 := Parent(w1);
    assert Good(s.owner, w2, Slot(w1), E(s.mem, s.at[w2], Slot(w1)));
  }

  lemma PteOf(s: St, w: Use, p: nat, j: nat)
    requires Inv(s) && p < |s.owner| && s.owner[p] == w && w.Table? && w.tab.T0? && TabOk(w.tab) && w.tab.i2 < 256
             && j < 512
    ensures Vpn(w.tab.i2, w.tab.i1, j) < PAGES && Pte(s, w.root, Vpn(w.tab.i2, w.tab.i1, j)) == E(s.mem, p, j)
  {
    var v := Vpn(w.tab.i2, w.tab.i1, j);
    VpnSplit(v);
    VpnUnique(w.tab.i2, w.tab.i1, j, v / 262144, v / 512 % 512, v % 512);
    hide Valid, Leaf, UserBit, Lent, Ppn, Listed, Kind, Down, Up, Vpn, E;
  }

  /** With nothing mapped a tree is its tables, and freewalk frees them all. */
  lemma CutTree(s: St, s': St, r: nat)
    requires Inv(s) && Inv(s') && NothingMapped(s, r) && Cut(s, s', Table(r, T2))
    ensures TreeFreed(s, s', r)
  {
    hide Inv, Pte;
    forall p: nat | p < |s.owner|
      ensures FreedPage(s.owner[p], s.mem[p], s'.owner[p], s'.mem[p], r)
    {
      assert CutPage(s.owner[p], s.mem[p], s'.owner[p], s'.mem[p], Table(r, T2));
      if s.owner[p].Table? {
        TabOkOf(s, p);
      }
      NoUser(s, r, p);
    }
  }

  lemma NoUser(s: St, r: nat, p: nat)
    requires Inv(s) && NothingMapped(s, r) && p < |s.owner|
    ensures !(s.owner[p].User? && s.owner[p].root == r)
  {
    hide Valid, Leaf, UserBit, Ppn, Listed, Pte, Down, Up, Known, Vpn;
    var u := s.owner[p];
    if u.User? && u.root == r {
      assert Kind(s.lo, u, s.mem[p], p);
      UserMapped(s, r, Vpn(u.tab.i2, u.tab.i1, u.i), p);
    }
  }

  lemma UnmapThenFree(s: St, s1: St, s2: St, r: nat, v: nat, n: nat)
    requires Unmapped(s, s1, r, v, n) && TreeFreed(s1, s2, r)
    ensures TreeFreed(s, s2, r)
  {
    hide Inv, Pte, Vpn;
    forall p: nat | p < |s.owner|
      ensures FreedPage(s.owner[p], s.mem[p], s2.owner[p], s2.mem[p], r)
    {
      assert UnmappedPage(s.owner[p], s.mem[p], s1.owner[p], s1.mem[p], r, v, n);
      assert FreedPage(s1.owner[p], s1.mem[p], s2.owner[p], s2.mem[p], r);
    }
  }

  lemma AllUnmapped(s: St, s': St, r: nat, n: nat)
    requires Sized(s, r, n) && Unmapped(s, s', r, 0, n) && Pte(s, r, PAGES - 2) == 0 && Pte(s, r, PAGES - 1) == 0
    ensures NothingMapped(s', r)
  {
    hide Inv, Pte;
    forall v: nat | v < PAGES
      ensures Pte(s', r, v) == 0
    {
      assert Pte(s', r, v) == if 0 <= v < n then 0 else Pte(s, r, v);
    }
  }

  lemma LentUnmapped(s: St, s': St, r: nat, v: nat, n: nat)
    requires Sized(s, r, n) && PAGES - 2 <= v < PAGES && Unmapped(s, s', r, v, 1)
    ensures Sized(s', r, n) && Pte(s', r, v) == 0 && forall w: nat {:trigger Pte(s', r, w)} | w != v ::
                                                       Pte(s', r, w) == Pte(s, r, w)
  {
    hide Inv, Pte;
  }

  // ---- new trees ----

  /** Tree `r` is new: its root and its tables were free pages, and every other page is as it was. */
  ghost predicate Created(s: St, s': St, r: nat)
  {
    Inv(s) && Inv(s') && GrownBut(s, s', r, r, r + 1) && r < |s.owner| && s.owner[r] == Free && Live(s', r)
  }

  /** Nothing happened but to the free list. */
  ghost predicate Restored(s: St, s': St)
  {
    && s'.lo == s.lo && |s'.mem| == |s.mem| == |s.owner| && s'.owner == s.owner
    && forall p: nat {:trigger s'.mem[p]} | p < |s.owner| && !s.owner[p].Free? :: s'.mem[p] == s.mem[p]
  }

  lemma RestoredSelf(s: St)
    requires Inv(s)
    ensures Restored(s, s)
  {
  }

  lemma RootMade(s: St)
    requires Inv(s) && s.list != []
    ensures s.list[0] < |s.mem| == |s.owner|
    ensures Created(s, NewRoot(Alloc(s), s.list[0]), s.list[0])
            && NothingMapped(NewRoot(Alloc(s), s.list[0]), s.list[0])
  {
    hide Valid, Leaf, UserBit, Lent, Ppn, Down, Listed, Kind, Filled, TabOf;
    AllocKeeps(s);
    var q := s.list[0];
    NewRootKeeps(Alloc(s), q);
    var s' := NewRoot(Alloc(s), q);
    forall v: nat | v < PAGES
      ensures Pte(s', q, v) == 0
    {
      NoTable(s, q, TabOf(v));
    }
  }

  /** A root that is not there has no pages. */
  lemma NoOrphans(s: St, r: nat, p: nat)
    requires Inv(s) && !Live(s, r) && p < |s.owner|
    ensures !OfTree(s.owner[p], r)
  {
    hide Valid, Leaf, UserBit, Lent, Ppn, Down, Listed, E;
    var u := s.owner[p];
    assert Kind(s.lo, u, s.mem[p], p);
    assert Linked(u) ==> Held(s.mem, s.at, u, p);
    assert Linked(u) && Linked(Parent(u)) ==> Held(s.mem, s.at, Parent(u), s.at[Parent(u)]);
    assert Linked(u) && Linked(Parent(u)) && Linked(Parent(Parent(u))) ==>
           Held(s.mem, s.at, Parent(Parent(u)), s.at[Parent(Parent(u))]);
    assert Table(r, T2) in s.at ==> Kind(s.lo, Table(r, T2), s.mem[s.at[Table(r, T2)]], s.at[Table(r, T2)]);
  }

  lemma NoTable(s: St, r: nat, t: Tab)
    requires Inv(s) && !Live(s, r)
    ensures Table(r, t) !in s.at
  {
    if Table(r, t) in s.at {
      var p := s.at[Table(r, t)];
      assert s.owner[p] == Table(r, t);
      hide Inv;
      NoOrphans(s, r, p);
    }
  }

  lemma NoneSized(s: St, r: nat)
    requires NothingMapped(s, r)
    ensures Sized(s, r, 0) && Pte(s, r, PAGES - 2) == 0 && Pte(s, r, PAGES - 1) == 0
  {
    hide Pte;
  }

  lemma CreatedLive(s: St, s': St, r: nat)
    requires Created(s, s', r)
    ensures Inv(s') && Live(s', r)
  {
  }

  lemma KernelPerms()
    ensures Leaf(WithV(PTE_R + PTE_X)) && Leaf(WithV(PTE_R + PTE_W))
    ensures !UserBit(WithV(PTE_R + PTE_X)) && !UserBit(WithV(PTE_R + PTE_W))
    ensures WithV(PTE_R + PTE_X) == PTE_R + PTE_X + PTE_V && WithV(PTE_R + PTE_W) == PTE_R + PTE_W + PTE_V
  {
  }

  lemma LentVacant(s: St, r: nat, v: nat, q: nat)
    requires v >= PAGES - 2 && Pte(s, r, v) == 0
    ensures Pte(s, r, v) == 0 && forall w: nat | v <= w < v + 1 :: MayTake(s, v, q, w)
  {
    hide Pte;
  }

  /** mappages of a lent page into a new tree. */
  lemma LentMapped(s0: St, s: St, s': St, r: nat, v: nat, k: nat, p: nat, f: nat)
    requires Created(s0, s, r) && Sized(s, r, 0) && PAGES - 2 <= v < PAGES && k <= 1
             && MappedRange(s, s', r, v, k, p, f) && Live(s', r)
    ensures Created(s0, s', r) && Sized(s', r, 0)
    ensures forall w: nat {:trigger Pte(s', r, w)} :: Pte(s', r, w) == if v <= w < v + k then p * 1024 + f
              else Pte(s, r, w)
  {
    hide Inv, Pte;
    assert GrownBut(s, s', r, r, r + 1);
    GrownButTrans(s0, s, s', r, r, r + 1);
  }

  lemma CreatedUndone(s: St, s1: St, s2: St, r: nat)
    requires Created(s, s1, r) && TreeFreed(s1, s2, r)
    ensures Restored(s, s2)
  {
    hide Inv;
    forall p: nat | p < |s.owner|
      ensures s2.owner[p] == s.owner[p] && (s.owner[p].Free? || s2.mem[p] == s.mem[p])
    {
      NoOrphans(s, r, p);
      if p != r {
        assert GrownPage(s.owner[p], s.mem[p], s1.owner[p], s1.mem[p], r);
      }
      assert FreedPage(s1.owner[p], s1.mem[p], s2.owner[p], s2.mem[p], r);
    }
  }

  // ---- conservation ----

  /** The page reached from root `r` by reading one entry per level. */
  function Reached(mem: seq<Page>, r: nat, t: Tab): nat
  {
    match t
    case T2 => r
    case T1(a) => Ppn(E(mem, r, a))
    case T0(a, b) => Ppn(E(mem, Ppn(E(mem, r, a)), b))
  }

  lemma TableReached(s: St, p: nat)
    requires Inv(s) && p < |s.owner| && s.owner[p].Table?
    ensures var u := s.owner[p]; Live(s, u.root) && Reached(s.mem, u.root, u.tab) == p
  {
    hide Valid, Leaf, UserBit, Lent, Ppn, Down, Listed, E;
    var u := s.owner[p];
    if !Live(s, u.root) {
      NoOrphans(s, u.root, p);
    }
    assert Table(u.root, T2) in s.at && s.at[Table(u.root, T2)] == u.root;
    assert Linked(u) ==> Held(s.mem, s.at, u, p);
    assert Linked(u) && Linked(Parent(u)) ==> Held(s.mem, s.at, Parent(u), s.at[Parent(u)]);
    assert Kind(s.lo, u, s.mem[p], p);
  }

  /** The entries read on the way to table `t` are valid. */
  predicate Path(mem: seq<Page>, r: nat, t: Tab)
  {
    match t
    case T2 => true
    case T1(a) => a < 512 && Valid(E(mem, r, a))
    case T0(a, b) => a < 512 && b < 512 && Valid(E(mem, r, a)) && Valid(E(mem, Ppn(E(mem, r, a)), b))
  }

  /** The leaf entry of virtual page `v`, read level by level in memory. */
  function MemPte(mem: seq<Page>, r: nat, v: nat): nat
  {
    if Path(mem, r, TabOf(v)) then E(mem, Reached(mem, r, TabOf(v)), v % 512) else 0
  }

  /** A valid path from a live root leads to the page that is used as that table, and such a table has one. */
  lemma PathUse(s: St, r: nat, t: Tab)
    requires Inv(s) && Live(s, r) && TabOk(t)
    ensures Path(s.mem, r, t) <==> Table(r, t) in s.at
    ensures Path(s.mem, r, t) ==> var p := Reached(s.mem, r, t);
              s.at[Table(r, t)] == p && p < |s.owner| && s.owner[p] == Table(r, t)
  {
    hide Inv, Valid, Ppn, E;
    LiveRoot(s, r);
    match t {
      case T2 => InvSizes(s, Table(r, T2));
      case T1(a) =>
        WalkStep(s, Table(r, T2), a);
        UseKnown(s, Table(r, t));
      case T0(a, b) =>
        WalkStep(s, Table(r, T2), a);
        ParentKnown(s, r, a, b);
        if Table(r, T1(a)) in s.at {
          WalkStep(s, Table(r, T1(a)), b);
        }
        UseKnown(s, Table(r, t));
    }
  }

  lemma UseKnown(s: St, u: Use)
    requires Inv(s)
    ensures u in s.at ==> s.at[u] < |s.owner| && s.owner[s.at[u]] == u
  {
    hide Valid, Leaf, UserBit, Lent, Ppn, Down, Up, Listed, Kind;
  }

  lemma ParentKnown(s: St, r: nat, a: nat, b: nat)
    requires Inv(s)
    ensures Table(r, T0(a, b)) in s.at ==> Table(r, T1(a)) in s.at
  {
    hide Valid, Leaf, UserBit, Lent, Ppn, Down, Listed, Kind;
    if Table(r, T0(a, b)) in s.at {
      assert Held(s.mem, s.at, Table(r, T0(a, b)), s.at[Table(r, T0(a, b))]);
    }
  }

  /** The translation of the model is what a walk through memory finds. */
  lemma PteIsWalk(s: St, r: nat, v: nat)
    requires Inv(s) && Live(s, r) && v < PAGES
    ensures MemPte(s.mem, r, v) == Pte(s, r, v)
  {
    hide Inv, Valid, Ppn, E;
    PathUse(s, r, TabOf(v));
  }

  // The places of a page, read off memory, the free list and the live roots.

  predicate TablePlace(s: St, r: nat, t: Tab, p: nat)
  {
    Live(s, r) && TabOk(t) && Path(s.mem, r, t) && Reached(s.mem, r, t) == p
  }

  predicate UserPlace(s: St, r: nat, v: nat, p: nat)
  {
    Live(s, r) && v < PAGES - 2 && MemPte(s.mem, r, v) != 0 && Ppn(MemPte(s.mem, r, v)) == p
  }

  lemma TablePlaceUse(s: St, r: nat, t: Tab, p: nat)
    requires Inv(s) && TablePlace(s, r, t, p)
    ensures p < |s.owner| && s.owner[p] == Table(r, t)
  {
    hide Inv, Path, Reached;
    PathUse(s, r, t);
  }

  lemma UserPlaceUse(s: St, r: nat, v: nat, p: nat)
    requires Inv(s) && UserPlace(s, r, v, p)
    ensures p < |s.owner| && s.owner[p] == User(r, TabOf(v), v % 512)
  {
    hide Inv, MemPte, Pte, TabOf, Ppn;
    PteIsWalk(s, r, v);
    LeafEntry(s, r, v);
  }

  lemma ListedUse(s: St, p: nat)
    requires Inv(s) && p < |s.mem|
    ensures p < |s.owner| && (p in s.list <==> s.owner[p].Free?)
  {
    hide Valid, Leaf, UserBit, Ppn, Down, Up, Known, Kind, E, Chain;
  }

  /** A page used as a table or as a user page has its place. */
  lemma UsePlace(s: St, p: nat)
    requires Inv(s) && p < |s.owner|
    ensures s.owner[p].Table? ==> TablePlace(s, s.owner[p].root, s.owner[p].tab, p)
    ensures s.owner[p].User? ==> var u := s.owner[p]; u.tab.T0? && UserPlace(s, u.root, Vpn(u.tab.i2, u.tab.i1, u.i), p)
  {
    var u := s.owner[p];
    UseKind(s, p);
    hide Inv, Path, Reached, MemPte, Pte, Ppn, Vpn, Lent, TabOf;
    if u.Table? {
      TableReached(s, p);
      PathUse(s, u.root, u.tab);
    }
    if u.User? {
      UserMapped(s, u.root, Vpn(u.tab.i2, u.tab.i1, u.i), p);
      PteIsWalk(s, u.root, Vpn(u.tab.i2, u.tab.i1, u.i));
    }
  }

  lemma UseKind(s: St, p: nat)
    requires Inv(s) && p < |s.owner|
    ensures s.owner[p].Table? ==> TabOk(s.owner[p].tab) && s.owner[p] in s.at
    ensures s.owner[p].User? ==> var u := s.owner[p];
              u.tab.T0? && Live(s, u.root) && Vpn(u.tab.i2, u.tab.i1, u.i) < PAGES - 2
  {
    hide Valid, Leaf, UserBit, Ppn, Down, Up, Vpn, E, Listed;
    var u := s.owner[p];
    assert Kind(s.lo, u, s.mem[p], p);
    if u.User? && !Live(s, u.root) {
      NoOrphans(s, u.root, p);
    }
  }

  /**
  Conservation: every page of memory is on the free list, is the table at the end of one path from one live
  root, is mapped as a user page at one address of one live tree, or belongs to somebody else, and it is
  never two of these.
  */
  lemma PageConservation(s: St, p: nat)
    requires Inv(s) && p < |s.mem|
    ensures p < |s.owner|
    ensures p in s.list ==>
              (forall r: nat, t: Tab :: !TablePlace(s, r, t, p))
              && (forall r: nat, v: nat :: !UserPlace(s, r, v, p))
    ensures forall r: nat, t: Tab, v: nat, r': nat {:trigger TablePlace(s, r, t, p), UserPlace(s, r', v, p)} ::
              !(TablePlace(s, r, t, p) && UserPlace(s, r', v, p))
    ensures forall r: nat, t: Tab, r': nat, t': Tab | TablePlace(s, r, t, p) && TablePlace(s, r', t', p) ::
              r == r' && t == t'
    ensures forall r: nat, v: nat, r': nat, v': nat | UserPlace(s, r, v, p) && UserPlace(s, r', v', p) ::
              r == r' && v == v'
    ensures s.owner[p].Other? <==>
              p !in s.list && (forall r: nat, t: Tab :: !TablePlace(s, r, t, p))
                  && (forall r: nat, v: nat :: !UserPlace(s, r, v, p))
  {
    hide Inv, TablePlace, UserPlace, TabOf, Vpn;
    ListedUse(s, p);
    UsePlace(s, p);
    forall r: nat, t: Tab | TablePlace(s, r, t, p)
      ensures s.owner[p] == Table(r, t)
    {
      TablePlaceUse(s, r, t, p);
    }
    forall r: nat, v: nat | UserPlace(s, r, v, p)
      ensures s.owner[p] == User(r, TabOf(v), v % 512)
    {
      UserPlaceUse(s, r, v, p);
    }
    forall r: nat, v: nat, r': nat, v': nat | UserPlace(s, r, v, p) && UserPlace(s, r', v', p)
      ensures r == r' && v == v'
    {
      SlotsDiffer(v, v');
    }
  }
}
