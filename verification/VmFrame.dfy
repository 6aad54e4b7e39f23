/** What an operation on one page table leaves alone, and what follows for the other trees. */
module VmFrame {
  import opened Sv39
  import opened PageTree
  import opened PageSteps

  predicate OfTree(u: Use, r: nat)
  {
    Named(u) && u.root == r
  }

  /** Free or a page of tree `r`. */
  predicate Mine(u: Use, r: nat)
  {
    u.Free? || OfTree(u, r)
  }

  /**
  Only free pages and pages of tree `r` change their use, and only its tables, or pages that change use, their
  contents.
  */
  ghost predicate Keeps(s: St, s': St, r: nat)
  {
    && s'.lo == s.lo && |s'.mem| == |s.mem| == |s.owner| == |s'.owner|
    && forall p: nat {:trigger s.owner[p]} {:trigger s'.owner[p]} | p < |s.owner| ::
         KeepsPage(s.owner[p], s.mem[p], s'.owner[p], s'.mem[p], r)
  }

  predicate KeepsPage(u: Use, m: Page, u': Use, m': Page, r: nat)
  {
    && (Mine(u, r) <==> Mine(u', r)) && (!Mine(u, r) ==> u' == u)
    && (u' == u && !u.Free? && !(u.Table? && u.root == r) ==> m' == m)
  }

  /** Every other tree translates as before, to pages with the same contents. */
  lemma OtherTrees(s: St, s': St, r: nat, r': nat, v: nat)
    requires Inv(s) && Inv(s') && Keeps(s, s', r) && r' != r && v < PAGES
    ensures Pte(s', r', v) == Pte(s, r', v)
    ensures Pte(s, r', v) != 0 && v < PAGES - 2 ==>
              var p := Ppn(Pte(s, r', v)); p < |s.mem| && s'.mem[p] == s.mem[p] && s.mem[p].Data?
  {
    hide Valid, Leaf, UserBit, Ppn, Down, Up, Listed, TabOf, Lent;
    var t := Table(r', TabOf(v));
    if t in s.at {
      assert KeepsPage(s.owner[s.at[t]], s.mem[s.at[t]], s'.owner[s.at[t]], s'.mem[s.at[t]], r);
    }
    if t in s'.at {
      assert KeepsPage(s.owner[s'.at[t]], s.mem[s'.at[t]], s'.owner[s'.at[t]], s'.mem[s'.at[t]], r);
    }
    if Pte(s, r', v) != 0 && v < PAGES - 2 {
      LeafEntry(s, r', v);
      var p := Ppn(Pte(s, r', v));
      assert KeepsPage(s.owner[p], s.mem[p], s'.owner[p], s'.mem[p], r);
    }
  }

  // ---- the use of the table at each level of a walk ----

  function UseAt(r: nat, level: nat, va: nat): Use
  {
    if level >= 2 then Table(r, T2) else if level == 1 then Table(r, T1(Px(2, va)))
        else Table(r, T0(Px(2, va), Px(1, va)))
  }

  lemma UseBelow(r: nat, level: nat, va: nat)
    requires 0 < level <= 2
    ensures Child(UseAt(r, level, va), Px(level, va)) == UseAt(r, level - 1, va)
  {
  }

  /** The walk ends in the leaf table of the page. */
  lemma WalkEnds(r: nat, va: nat)
    requires va < MAXVA
    ensures UseAt(r, 0, va) == Table(r, TabOf(va / PGSIZE)) && Px(0, va) == va / PGSIZE % 512 && Px(2, va) < 256
            && va / PGSIZE < PAGES
  {
    PxVpn(va);
    VpnSplit(va / PGSIZE);
    hide Px;
    VpnUnique(Px(2, va), Px(1, va), Px(0, va), va / PGSIZE / 262144, va / PGSIZE / 512 % 512, va / PGSIZE % 512);
  }

  /** A leaf table hangs from tables on the levels above. */
  lemma TablesAbove(s: St, r: nat, level: nat, va: nat)
    requires Inv(s) && level <= 2 && UseAt(r, 0, va) in s.at
    ensures UseAt(r, level, va) in s.at
  {
    hide Valid, Leaf, UserBit, Ppn, Down, Listed, Lent, Px, Kind;
    assert Held(s.mem, s.at, UseAt(r, 0, va), s.at[UseAt(r, 0, va)]);
    assert Held(s.mem, s.at, UseAt(r, 1, va), s.at[UseAt(r, 1, va)]);
  }

  // ---- adding tables ----

  /** Outside [qlo, qhi) no page that was in use is touched, and the free ones taken become tables of tree `r`. */
  ghost predicate GrownBut(s: St, s': St, r: nat, qlo: nat, qhi: nat)
  {
    && s'.lo == s.lo && |s'.mem| == |s.mem| == |s.owner| == |s'.owner|
    && forall p: nat {:trigger s.owner[p]} {:trigger s'.owner[p]} | p < |s.owner| && !(qlo <= p < qhi) ::
         GrownPage(s.owner[p], s.mem[p], s'.owner[p], s'.mem[p], r)
  }

  /** Nothing but new tables of tree `r`; no translation changes. */
  ghost predicate Grown(s: St, s': St, r: nat)
  {
    Inv(s') && GrownBut(s, s', r, 0, 0) && forall r': nat, v: nat {:trigger Pte(s', r', v)} ::
                                             Pte(s', r', v) == Pte(s, r', v)
  }

  predicate GrownPage(u: Use, m: Page, u': Use, m': Page, r: nat)
  {
    if u' == u then u.Free? || (u.Table? && u.root == r) || m' == m
    else u.Free? && u'.Table? && u'.root == r && u'.tab != T2
  }

  lemma GrownSelf(s: St, r: nat)
    requires Inv(s)
    ensures Grown(s, s, r)
  {
  }

  lemma GrownButTrans(s: St, s1: St, s2: St, r: nat, qlo: nat, qhi: nat)
    requires GrownBut(s, s1, r, qlo, qhi) && GrownBut(s1, s2, r, qlo, qhi)
    ensures GrownBut(s, s2, r, qlo, qhi)
  {
    forall p: nat | p < |s.owner| && !(qlo <= p < qhi)
      ensures GrownPage(s.owner[p], s.mem[p], s2.owner[p], s2.mem[p], r)
    {
      assert GrownPage(s.owner[p], s.mem[p], s1.owner[p], s1.mem[p], r);
      assert GrownPage(s1.owner[p], s1.mem[p], s2.owner[p], s2.mem[p], r);
    }
  }

  lemma GrownTrans(s: St, s1: St, s2: St, r: nat)
    requires Grown(s, s1, r) && Grown(s1, s2, r)
    ensures Grown(s, s2, r)
  {
    hide Inv, Pte;
    GrownButTrans(s, s1, s2, r, 0, 0);
    forall r': nat, v: nat
      ensures Pte(s2, r', v) == Pte(s, r', v)
    {
      assert Pte(s1, r', v) == Pte(s, r', v);
    }
  }

  /** The page kalloc returned can become the table in slot `i`. */
  lemma TableFits(s: St, s1: St, u: Use, i: nat, q: nat)
    requires Inv(s) && s.list != [] && s.list[0] == q < |s.mem| == |s.owner| && s1 == Alloc(s)
    requires u.Table? && !u.tab.T0? && u in s.at && i < 512 && (u.tab == T2 ==> i < 256) && E(s.mem, s.at[u], i) == 0
    ensures CanAdd(s1, u, i, q, ZeroTable(), 1) && q != s.at[u] && |s.mem| == PHYS_PAGES
    ensures s.at[u] < |s1.mem| && s1.mem[s.at[u]].Entries? && |s1.mem[s.at[u]].pte| == 512 && s1.mem[q].Data?
  {
    hide Lent, Chain, Down, Up, Filled;
    AllocKeeps(s);
    assert Kind(s.lo, u, s.mem[s.at[u]], s.at[u]);
  }

  lemma GrownAdd(s: St, u: Use, i: nat, q: nat)
    requires Inv(s) && s.list != [] && s.list[0] == q < |s.mem| == |s.owner|
    requires u.Table? && !u.tab.T0? && u in s.at && i < 512 && (u.tab == T2 ==> i < 256) && E(s.mem, s.at[u], i) == 0
    ensures q != s.at[u] && s.mem[s.at[u]].Entries? && |s.mem[s.at[u]].pte| == 512
    ensures Grown(s, Add(Alloc(s), u, i, q, ZeroTable(), 1), u.root)
  {
    hide Kind, Lent, Chain, Down, Up, Filled, Valid, Leaf, UserBit, Ppn;
    AllocKeeps(s);
    var s1 := Alloc(s);
    TableFits(s, s1, u, i, q);
    AddKeeps(s1, u, i, q, ZeroTable(), 1);
    var s2 := Add(s1, u, i, q, ZeroTable(), 1);
    forall r: nat, v: nat
      ensures Pte(s2, r, v) == Pte(s, r, v)
    {
      AddPte(s1, u, i, q, ZeroTable(), 1, r, v);
    }
  }

  lemma LiveRoot(s: St, r: nat)
    requires Inv(s) && Live(s, r)
    ensures Table(r, T2) in s.at && s.at[Table(r, T2)] == r
  {
  }

  lemma LiveKept(s: St, s': St, r: nat)
    requires Grown(s, s', r) && Live(s, r)
    ensures Live(s', r)
  {
    hide Inv, Pte;
    assert GrownPage(s.owner[r], s.mem[r], s'.owner[r], s'.mem[r], r);
  }

  lemma NothingBelow(s: St, r: nat, level: nat, va: nat)
    requires Inv(s) && 0 < level <= 2 && Child(UseAt(r, level, va), Px(level, va)) !in s.at
    ensures UseAt(r, 0, va) !in s.at
  {
    hide Inv, Px;
    UseBelow(r, level, va);
    if UseAt(r, 0, va) in s.at {
      TablesAbove(s, r, level - 1, va);
    }
  }

  lemma GrownKeeps(s: St, s': St, r: nat)
    requires Grown(s, s', r)
    ensures Keeps(s, s', r) && (Live(s, r) ==> Live(s', r))
  {
    hide Inv, Pte;
  }

  // ---- mapping one page ----

  /** Page `q` can be mapped at virtual page `v`: unless `v` is for a lent page, nobody uses `q` yet. */
  predicate Mappable(s: St, v: nat, q: nat)
  {
    v < PAGES - 2 ==>
      s.lo <= q < |s.mem| == |s.owner| && s.owner[q] == Other && s.mem[q].Data?
      && |s.mem[q].bytes| == PGSIZE
  }

  /** One more translation in tree `r`, to page `q`, which now belongs to the tree unless it is lent. */
  ghost predicate MappedPage(s: St, s': St, r: nat, v: nat, q: nat, e: nat)
  {
    && Inv(s') && GrownBut(s, s', r, q, if v < PAGES - 2 then q + 1 else q)
    && (forall r': nat, v': nat {:trigger Pte(s', r', v')} ::
          Pte(s', r', v') == if r' == r && v' == v then e else Pte(s, r', v'))
    && (v < PAGES - 2 ==> q < |s.mem| && s'.owner[q] == User(r, TabOf(v), v % 512) && s'.mem[q] == s.mem[q])
  }

  lemma OwnedSlot(v: nat)
    requires v < PAGES
    ensures TabOf(v).T0? && TabOk(TabOf(v)) && (Lent(TabOf(v), v % 512) <==> v >= PAGES - 2)
  {
    VpnSplit(v);
  }

  lemma CanMapOwned(s: St, s1: St, r: nat, v: nat, q: nat, f: nat)
    requires Grown(s, s1, r) && v < PAGES - 2 && Pte(s, r, v) == 0 && Mappable(s, v, q) && Table(r, TabOf(v)) in s1.at
    requires f < 1024 && Valid(f) && Leaf(f)
    ensures q < |s1.mem| == |s1.owner| && s1.mem[q] == s.mem[q] && s1.owner[q] == Other
    ensures CanAdd(s1, Table(r, TabOf(v)), v % 512, q, s1.mem[q], f)
  {
    OwnedSlot(v);
    hide Valid, Leaf, UserBit, Lent, Listed, Down, Up, Kind, TabOf;
    assert Pte(s1, r, v) == 0;
    assert GrownPage(s.owner[q], s.mem[q], s1.owner[q], s1.mem[q], r);
  }

  lemma MapOwned(s: St, s1: St, r: nat, v: nat, q: nat, f: nat)
    requires Grown(s, s1, r) && v < PAGES - 2 && Pte(s, r, v) == 0 && Mappable(s, v, q) && Table(r, TabOf(v)) in s1.at
    requires f < 1024 && Valid(f) && Leaf(f)
    ensures var u := Table(r, TabOf(v)); q != s1.at[u] < |s1.mem| == |s1.owner| && q < |s1.mem| && s1.owner[q] == Other
    ensures var u := Table(r, TabOf(v)); q < |s1.mem| && s1.mem[s1.at[u]].Entries? && |s1.mem[s1.at[u]].pte| == 512
    ensures MappedPage(s, Add(s1, Table(r, TabOf(v)), v % 512, q, s1.mem[q], f), r, v, q, q * 1024 + f)
  {
    hide Inv, TabOf, Pte, CanAdd, Valid, Leaf, UserBit, GrownBut, Grown;
    var u := Table(r, TabOf(v));
    CanMapOwned(s, s1, r, v, q, f);
    OwnedSlot(v);
    AddKeeps(s1, u, v % 512, q, s1.mem[q], f);
    AddApart(s1, u, v % 512, q, s1.mem[q], f);
    MapOwnedPtes(s, s1, r, v, q, s1.mem[q], f);
    MapOwnedKeeps(s, s1, u, v % 512, q, s1.mem[q], f);
  }

  lemma MapOwnedPtes(s: St, s1: St, r: nat, v: nat, q: nat, m: Page, f: nat)
    requires Grown(s, s1, r) && v < PAGES && CanAdd(s1, Table(r, TabOf(v)), v % 512, q, m, f)
    ensures var u := Table(r, TabOf(v)); s1.mem[s1.at[u]].Entries? && |s1.mem[s1.at[u]].pte| == 512
    ensures forall r': nat, v': nat {:trigger Pte(Add(s1, Table(r, TabOf(v)), v % 512, q, m, f), r', v')} ::
              Pte(Add(s1, Table(r, TabOf(v)), v % 512, q, m, f), r', v')
              == if r' == r && v' == v then q * 1024 + f else Pte(s, r', v')
  {
    var u := Table(r, TabOf(v));
    AddKeeps(s1, u, v % 512, q, m, f);
    AddApart(s1, u, v % 512, q, m, f);
    forall r': nat, v': nat
      ensures Pte(Add(s1, u, v % 512, q, m, f), r', v') == if r' == r && v' == v then q * 1024 + f else Pte(s, r', v')
    {
      hide Inv, TabOf, Pte, Add, CanAdd;
      AddPte(s1, u, v % 512, q, m, f, r', v');
      assert Pte(s1, r', v') == Pte(s, r', v');
      if TabOf(v') == TabOf(v) && v' % 512 == v % 512 {
        SlotsDiffer(v, v');
      }
    }
  }

  lemma MapOwnedKeeps(s: St, s1: St, u: Use, i: nat, q: nat, m: Page, f: nat)
    requires u.Table? && Grown(s, s1, u.root) && CanAdd(s1, u, i, q, m, f)
    ensures s1.mem[s1.at[u]].Entries? && |s1.mem[s1.at[u]].pte| == 512
    ensures GrownBut(s, Add(s1, u, i, q, m, f), u.root, q, q + 1)
  {
    hide Valid, Leaf, UserBit, Lent, Listed, Down, Up, Pte, Kind, Child;
    SlotEmpty(s1, u, i);
    AddApart(s1, u, i, q, m, f);
    var s2 := Add(s1, u, i, q, m, f);
    forall p: nat | p < |s.owner| && p != q
      ensures GrownPage(s.owner[p], s.mem[p], s2.owner[p], s2.mem[p], u.root)
    {
      assert GrownPage(s.owner[p], s.mem[p], s1.owner[p], s1.mem[p], u.root);
    }
  }

  lemma MapLent(s: St, s1: St, r: nat, v: nat, q: nat, e: nat)
    requires Grown(s, s1, r) && PAGES - 2 <= v < PAGES && Table(r, TabOf(v)) in s1.at && Valid(e) && Leaf(e)
             && !UserBit(e)
    ensures var u := Table(r, TabOf(v));
            s1.at[u] < |s1.mem| && s1.mem[s1.at[u]].Entries?
            && |s1.mem[s1.at[u]].pte| == 512
    ensures MappedPage(s, Lend(s1, Table(r, TabOf(v)), v % 512, e), r, v, q, e)
  {
    var u := Table(r, TabOf(v));
    OwnedSlot(v);
    LendKeeps(s1, u, v % 512, e);
    var s2 := Lend(s1, u, v % 512, e);
    forall r': nat, v': nat
      ensures Pte(s2, r', v') == if r' == r && v' == v then e else Pte(s, r', v')
    {
      hide Inv, TabOf, Pte, Lend, CanLend;
      LendPte(s1, u, v % 512, e, r', v');
      assert Pte(s1, r', v') == Pte(s, r', v');
      if TabOf(v') == TabOf(v) && v' % 512 == v % 512 {
        SlotsDiffer(v, v');
      }
    }
    LendFrame(s, s1, u, v % 512, e, q);
  }

  lemma LendFrame(s: St, s1: St, u: Use, i: nat, e: nat, q: nat)
    requires u.Table? && Grown(s, s1, u.root) && u in s1.at && i < 512
    ensures s1.at[u] < |s1.mem| && s1.mem[s1.at[u]].Entries? && |s1.mem[s1.at[u]].pte| == 512
    ensures GrownBut(s, Lend(s1, u, i, e), u.root, q, q)
  {
    hide Valid, Leaf, UserBit, Lent, Listed, Down, Up, Pte;
    assert Kind(s1.lo, u, s1.mem[s1.at[u]], s1.at[u]);
    var s2 := Lend(s1, u, i, e);
    forall p: nat | p < |s.owner|
      ensures GrownPage(s.owner[p], s.mem[p], s2.owner[p], s2.mem[p], u.root)
    {
      assert GrownPage(s.owner[p], s.mem[p], s1.owner[p], s1.mem[p], u.root);
    }
  }

  lemma SlotFree(s: St, s1: St, r: nat, v: nat)
    requires Grown(s, s1, r) && Pte(s, r, v) == 0 && Table(r, TabOf(v)) in s1.at
    ensures E(s1.mem, s1.at[Table(r, TabOf(v))], v % 512) == 0 && !Valid(0)
  {
    hide Inv, TabOf;
    assert Pte(s1, r, v) == 0;
  }

  /** Walking changes no entry, and an entry that is not zero is valid. */
  lemma EntryThere(s: St, s1: St, r: nat, v: nat)
    requires Inv(s) && Grown(s, s1, r) && v < PAGES
    ensures Pte(s1, r, v) == Pte(s, r, v) && (Pte(s, r, v) != 0 ==> Valid(Pte(s, r, v)))
  {
    hide Inv, TabOf, Valid, Pte;
    if Pte(s, r, v) != 0 {
      LeafEntry(s, r, v);
    }
  }

  lemma PermValid(perm: nat)
    requires perm < 1024
    ensures Valid(WithV(perm)) && WithV(perm) < 1024
  {
  }

  lemma MadePte(q: nat, f: nat)
    requires f < 1024 && Valid(f) && Leaf(f)
    ensures Valid(q * 1024 + f) && Leaf(q * 1024 + f) && UserBit(q * 1024 + f) == UserBit(f)
  {
    MakePte(q, f);
  }

  lemma MappedInv(s: St, s': St, r: nat, v: nat, q: nat, e: nat)
    requires MappedPage(s, s', r, v, q, e)
    ensures Inv(s')
  {
  }
}
